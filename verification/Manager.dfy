/** The scheduler loop (`drive`, `housekeeping`, `storage` in `manager/mod.rs`). The parallel vectors of the
    code are one vector of slots here. Jobs run in the environment and touch durable state and the installer
    only between the steps of the loop, and only for their own host. The clock never goes back. */
module Manager {
  import opened StringOrder
  import opened Types
  import Renewal
  import Schedule

  datatype HostState = Pending | Ready | Expired

  datatype Job =
    | Issue(at: nat, accountRetry: RetryState, seen: nat)   // `seen` account failures had been recorded at dispatch
    | Ari(at: nat, generation: Option<Chain>)

  datatype JobId = OnAccount | OnHost(index: nat)

  datatype Publication = Publication(generation: Option<Chain>, done: bool)

  datatype Status = Status(state: HostState, attempts: nat, successes: nat, failures: nat, installs: nat)

  /** One host. `durable` is the stored record and `active` the chain activated last. `settled` says that the
      outcome of the job is counted, `writing` that its saves may still land. The three generation numbers
      count success commits: of the stored, the cached and the active certificate. */
  datatype Slot = Slot(
    cached: StoredHost,
    durable: Option<StoredHost>,
    busy: bool,
    job: Option<Job>,
    settled: bool,
    writing: bool,
    published: Publication,
    over: Option<CertificateValidity>,
    status: Status,
    dispatched: nat,
    active: Option<Chain>,
    durableGen: nat,
    cachedGen: nat,
    activeGen: Option<nat>)

  function ChainOf(host: StoredHost): Option<Chain> {
    if host.certificate.Some? then Some(host.certificate.value.material.chain) else None
  }

  predicate ValidAt(c: StoredCertificate, now: nat) {
    c.notBefore <= now < c.notAfter
  }

  function StateOf(host: StoredHost, now: nat): HostState {
    if host.certificate.None? then Pending
    else if now >= host.certificate.value.notAfter then Expired
    else if now >= host.certificate.value.notBefore then Ready
    else Pending
  }

  function StateOfPeriod(validity: CertificateValidity, now: nat): HostState {
    if now < validity.notBefore then Pending else if now >= validity.notAfter then Expired else Ready
  }

  /** What a pass that started at `started` reports at `now`. */
  function Shown(s: Slot, started: nat, now: nat): HostState {
    var current := if s.over.Some? then StateOfPeriod(s.over.value, started) else StateOf(s.cached, now);
    if current.Ready? && !s.published.done then Pending else current
  }

  /** Without an override the state is ready exactly if the certificate is published and valid now, and expired
      exactly if there is one that has run out. With an override its period decides, at the start of the pass. */
  lemma ShownMeans(s: Slot, started: nat, now: nat)
    ensures var state := Shown(s, started, now);
      if s.over.Some? then
        && (state == Ready <==> s.published.done && s.over.value.notBefore <= started < s.over.value.notAfter)
        && (state == Expired <==> s.over.value.notBefore <= started && s.over.value.notAfter <= started)
      else
        && (state == Ready <==>
              && s.published.done && s.cached.certificate.Some?
              && s.cached.certificate.value.notBefore <= now < s.cached.certificate.value.notAfter)
        && (state == Expired <==> s.cached.certificate.Some? && s.cached.certificate.value.notAfter <= now)
  {}

  /** The earliest moment an issuance may start: the retry floor, and the renewal time of a usable certificate. */
  function IssueDue(host: StoredHost, now: nat, profile: Option<string>): nat {
    var renewal := if host.certificate.Some?
                      && now < host.certificate.value.notAfter && host.certificate.value.profile == profile
                   then host.certificate.value.renewAt else 0;
    Max(host.retry.notBefore, renewal)
  }

  function AccountFloor(account: Option<StoredAccount>): nat {
    if account.Some? then account.value.retry.notBefore else 0
  }

  predicate Registered(account: Option<StoredAccount>) {
    account.Some? && account.value.credentials.Some?
  }

  // ----- the invariant of one host -----

  /** An idle host's cached record is its durable one; a new host has none yet. */
  predicate Cached(s: Slot) {
    && s.durableGen == s.cachedGen
    && (s.durable == Some(s.cached)
        || (s.durable.None? && s.cached.certificate.None? && s.cached.order.None? && s.cached.retry == Fresh))
  }

  function InFlight(s: Slot): nat {
    if s.job.Some? && s.job.value.Issue? && !s.settled then 1 else 0
  }

  /** Attempts are the successes, the failures and the issuance in flight, as long as the counters have room. */
  predicate Counted(s: Slot) {
    s.dispatched <= U64_MAX ==>
      && s.status.attempts == s.status.successes + s.status.failures + InFlight(s)
      && s.status.attempts <= s.dispatched
  }

  /** Which certificate is active, and how the publication flag and an override speak of it. */
  predicate Installed(s: Slot) {
    && s.cachedGen <= s.durableGen
    && (s.cachedGen == s.durableGen && s.durable.Some? ==> ChainOf(s.durable.value) == ChainOf(s.cached))
    && (s.over.None? ==>
          && (s.activeGen.Some? ==> s.activeGen.value <= s.cachedGen)
          && (s.published.done ==> s.published.generation.Some?)
          && (s.published.done ==> s.active == s.published.generation))
    && (s.over.Some? ==>
          && s.busy && !s.writing && s.published == Publication(None, true)
          && s.durable.Some? && s.durable.value.certificate.Some?
          && s.durable.value.certificate.value.Validity() == s.over.value
          && s.active == ChainOf(s.durable.value) && s.activeGen == Some(s.durableGen))
  }

  /** A running issuance started after both floors; account failures recorded since pushed the account's floor
      past its start, unless the back-off was reset in between. */
  predicate Dispatched(s: Slot, account: Option<StoredAccount>, now: nat, recorded: nat) {
    s.job.Some? && s.job.value.Issue? ==>
      var j := s.job.value;
      && j.at <= now && j.seen <= recorded
      && (!s.settled ==> s.cached.retry.notBefore <= j.at) && j.accountRetry.notBefore <= j.at
      && Registered(account)
      && (recorded > j.seen ==> account.value.retry.notBefore > j.at || account.value.retry.failures == 0)
  }

  predicate SlotOk(s: Slot, account: Option<StoredAccount>, now: nat, recorded: nat) {
    && (s.busy <==> s.job.Some?)
    && (s.writing ==> s.busy && s.job.value.Issue?)
    && ((!s.busy || s.job.value.Ari?) ==> Cached(s))
    && (s.durable.Some? && s.durable.value.certificate.Some? ==> ValidCertificate(s.durable.value.certificate.value))
    && Counted(s) && Installed(s) && Dispatched(s, account, now, recorded)
  }

  /** No outcome of the host's job has been handled yet. */
  predicate Quiet(s: Slot) {
    s.over.None? && !s.settled
  }

  /** The stored certificate is the same one or one committed later. */
  predicate Newer(a: Slot, b: Slot) {
    && b.durableGen >= a.durableGen
    && (b.durableGen == a.durableGen && a.durable.Some? ==>
          b.durable.Some? && ChainOf(b.durable.value) == ChainOf(a.durable.value))
  }

  /** Every record of a host carries the host's name. */
  predicate Named(s: Slot, name: string) {
    s.cached.dns == name && (s.durable.Some? ==> s.durable.value.dns == name)
  }

  ghost predicate Distinct(names: seq<string>) {
    forall i, j :: 0 <= i < j < |names| ==> names[i] != names[j]
  }

  /** The hosts have the configured names, each its own. */
  ghost predicate AreNamed(slots: seq<Slot>, names: seq<string>) {
    |slots| == |names| && Distinct(names) && forall i :: 0 <= i < |slots| ==> Named(slots[i], names[i])
  }

  /** What the passage of time, running jobs and housekeeping leave alone in a slot. */
  predicate Waits(a: Slot, b: Slot) {
    && b.cached == a.cached && b.busy == a.busy && b.job == a.job && b.writing == a.writing && b.settled == a.settled
    && b.over == a.over && b.dispatched == a.dispatched && b.cachedGen == a.cachedGen
    && b.status.attempts == a.status.attempts && b.status.successes == a.status.successes
    && b.status.failures == a.status.failures
    && (!a.writing ==> b.durable == a.durable && b.durableGen == a.durableGen)
    && Newer(a, b)
    && (a.over.Some? ==> b.published == a.published && b.active == a.active)
    && NoOlder(a, b)
  }

  /** No older generation is activated again. */
  predicate NoOlder(a: Slot, b: Slot) {
    a.activeGen.Some? ==> b.activeGen.Some? && b.activeGen.value >= a.activeGen.value
  }

  /** The publication flag belongs to the cached certificate, and a certificate that was valid throughout is active. */
  predicate Tended(s: Slot, from: nat, to: nat) {
    s.over.None? ==>
      && s.published.generation == ChainOf(s.cached)
      && (s.published.done ==> s.active == ChainOf(s.cached))
      && (s.cached.certificate.Some? && s.cached.certificate.value.notBefore <= from
          && to < s.cached.certificate.value.notAfter
          ==> s.published.done)
  }

  /** The cached certificate is valid now and has not been published. */
  predicate Unpublished(s: Slot, now: nat) {
    && s.over.None? && s.cached.certificate.Some? && ValidAt(s.cached.certificate.value, now)
    && (s.published.generation != ChainOf(s.cached) || !s.published.done)
  }

  /** A certificate is activated, and counted, only if it is the cached one and valid at some moment of the pass. */
  predicate Activates(a: Slot, b: Slot, from: nat, to: nat) {
    || (b.active == a.active && b.activeGen == a.activeGen && b.status.installs == a.status.installs)
    || (&& a.over.None? && a.cached.certificate.Some?
        && b.active == ChainOf(a.cached) && b.activeGen == Some(a.cachedGen)
        && b.status.installs == SaturatingSucc(a.status.installs, U64_MAX)
        && a.cached.certificate.value.notBefore <= to && from < a.cached.certificate.value.notAfter)
  }

  ghost predicate AllWait(before: seq<Slot>, after: seq<Slot>) {
    |before| == |after| && forall i :: 0 <= i < |before| ==> Waits(before[i], after[i])
  }

  predicate SameCounts(a: Status, b: Status) {
    b.attempts == a.attempts && b.successes == a.successes && b.failures == a.failures
  }

  ghost predicate SameCached(before: seq<Slot>, after: seq<Slot>) {
    |before| == |after| && forall i :: 0 <= i < |before| ==> after[i].cached == before[i].cached
  }

  ghost predicate NoneOlder(before: seq<Slot>, after: seq<Slot>) {
    |before| == |after| && forall i :: 0 <= i < |before| ==> NoOlder(before[i], after[i])
  }

  predicate Wants(id: JobId, slots: seq<Slot>, accountBusy: bool) {
    match id
    case OnAccount => accountBusy
    case OnHost(i) => i < |slots| && slots[i].busy
  }

  /** The jobs are the busy hosts and the account job, except one that has just completed. */
  ghost predicate JobsAre(jobs: set<JobId>, slots: seq<Slot>, accountBusy: bool, except: Option<JobId>) {
    forall id :: id in jobs <==> Wants(id, slots, accountBusy) && Some(id) != except
  }

  /** When the host wants its next job, and whether that is a renewal check. */
  function Due(s: Slot, now: nat, profile: Option<string>, floor: nat): (nat, bool) {
    var issuance := Max(IssueDue(s.cached, now, profile), floor);
    var usable := s.cached.certificate.Some? && now < s.cached.certificate.value.notAfter;
    if usable && Max(s.cached.certificate.value.ariCheckAt, floor) < issuance && now < issuance
    then (Max(s.cached.certificate.value.ariCheckAt, floor), true)
    else (issuance, false)
  }

  /** At `now`, an issuance may start from `t` on: both floors have passed then, and a certificate that is usable
      and has the configured profile is due for renewal. */
  predicate MayIssue(s: Slot, now: nat, profile: Option<string>, account: Option<StoredAccount>, t: nat) {
    && s.cached.retry.notBefore <= t
    && (account.Some? ==> account.value.retry.notBefore <= t)
    && (s.cached.certificate.Some? ==>
          var c := s.cached.certificate.value; now < c.notAfter && c.profile == profile ==> c.renewAt <= t)
  }

  /** At `now`, a usable certificate may be checked for renewal from `t` on. */
  predicate MayCheck(s: Slot, now: nat, account: Option<StoredAccount>, t: nat) {
    && s.cached.certificate.Some? && now < s.cached.certificate.value.notAfter
    && s.cached.certificate.value.ariCheckAt <= t
    && (account.Some? ==> account.value.retry.notBefore <= t)
  }

  /** What a host is due for: an issuance exactly if one may start now; a renewal check exactly if that is allowed
      now and an issuance is not. The due time is the first moment at which its job may start. */
  lemma DueMeans(s: Slot, now: nat, profile: Option<string>, account: Option<StoredAccount>)
    ensures var (due, ari) := Due(s, now, profile, AccountFloor(account));
      && (due <= now && !ari <==> MayIssue(s, now, profile, account, now))
      && (due <= now && ari <==> !MayIssue(s, now, profile, account, now) && MayCheck(s, now, account, now))
      && (!ari ==> forall t: nat :: due <= t <==> MayIssue(s, now, profile, account, t))
      && (ari ==> forall t: nat :: due <= t <==> MayCheck(s, now, account, t))
      && (!MayIssue(s, now, profile, account, now) ==>
            forall t: nat :: due <= t <==> MayIssue(s, now, profile, account, t) || MayCheck(s, now, account, t))
  {}

  predicate SomeDue(slots: seq<Slot>, now: nat, profile: Option<string>, floor: nat) {
    exists i :: 0 <= i < |slots| && !slots[i].busy && Due(slots[i], now, profile, floor).0 <= now
  }

  /** What a round of dispatching goes by: its time, the configured profile and the account's back-off. */
  datatype Order = Order(at: nat, profile: Option<string>, retry: RetryState)

  function DueIn(s: Slot, order: Order): (nat, bool) {
    Due(s, order.at, order.profile, order.retry.notBefore)
  }

  predicate Eligible(s: Slot, order: Order) {
    !s.busy && DueIn(s, order).0 <= order.at
  }

  /** Candidates are served by due time, then by name. */
  predicate Earlier(a: Slot, b: Slot, order: Order) {
    DueIn(a, order).0 < DueIn(b, order).0
      || (DueIn(a, order).0 == DueIn(b, order).0 && Less(a.cached.dns, b.cached.dns))
  }

  /** A host is served, and an account is checked for it, exactly if it is idle and a job may start now. */
  lemma EligibleMeans(s: Slot, slots: seq<Slot>, at: nat, profile: Option<string>, account: Option<StoredAccount>)
    ensures account.Some? ==>
      (Eligible(s, Order(at, profile, account.value.retry)) <==>
         !s.busy && (MayIssue(s, at, profile, account, at) || MayCheck(s, at, account, at)))
    ensures SomeDue(slots, at, profile, AccountFloor(account)) <==>
      exists i :: 0 <= i < |slots| && !slots[i].busy
                  && (MayIssue(slots[i], at, profile, account, at) || MayCheck(slots[i], at, account, at))
  {
    DueMeans(s, at, profile, account);
    forall i | 0 <= i < |slots|
      ensures Due(slots[i], at, profile, AccountFloor(account)).0 <= at <==>
        MayIssue(slots[i], at, profile, account, at) || MayCheck(slots[i], at, account, at)
    {
      DueMeans(slots[i], at, profile, account);
    }
  }

  // ----- what the steps do to a host -----

  /** What the store may hold for a host: nothing, or a valid record under the host's own name. */
  predicate Stored(name: string, stored: Option<StoredHost>) {
    stored.Some? ==>
      && stored.value.dns == name
      && (stored.value.certificate.Some? ==> ValidCertificate(stored.value.certificate.value))
  }

  /** Names that are not repeated, each with a record that fits it. */
  ghost predicate Loadable(names: seq<string>, stored: seq<Option<StoredHost>>) {
    |names| == |stored| && Distinct(names) && forall i :: 0 <= i < |names| ==> Stored(names[i], stored[i])
  }

  function Loaded(name: string, stored: Option<StoredHost>, now: nat): Slot {
    var host := if stored.Some? then stored.value else StoredHost(name, None, None, Fresh);
    var live := host.certificate.Some? && ValidAt(host.certificate.value, now);
    Slot(host, stored, false, None, false, false, Publication(ChainOf(host), live), None,
         Status(StateOf(host, now), 0, 0, 0, if live then 1 else 0), 0,
         if live then ChainOf(host) else None, 0, 0, if live then Some(0) else None)
  }

  /** A loaded host starts from its stored record, or from an empty one; its certificate is active, and counted as
      an installation, exactly if it is valid now. */
  lemma LoadedMeans(name: string, stored: Option<StoredHost>, now: nat)
    ensures var s := Loaded(name, stored, now);
      && s.durable == stored && s.cached == (if stored.Some? then stored.value else StoredHost(name, None, None, Fresh))
      && !s.busy && s.job.None? && s.over.None? && s.dispatched == 0
      && var valid := s.cached.certificate.Some?
                      && s.cached.certificate.value.notBefore <= now < s.cached.certificate.value.notAfter;
      && s.active == (if valid then Some(s.cached.certificate.value.material.chain) else None)
      && s.published == Publication(ChainOf(s.cached), valid)
      && s.status == Status(Shown(s, now, now), 0, 0, 0, if valid then 1 else 0)
  {}

  /** A slot whose host has just been given the job it wants. */
  function Launched(s: Slot, order: Order, recorded: nat): Slot {
    if DueIn(s, order).1 then
      s.(busy := true, settled := false, job := Some(Ari(order.at, ChainOf(s.cached))))
    else
      s.(busy := true, settled := false, writing := true, job := Some(Issue(order.at, order.retry, recorded)),
         dispatched := s.dispatched + 1,
         status := s.status.(attempts := SaturatingSucc(s.status.attempts, U64_MAX)))
  }

  /** A due host gets an issuance exactly if one may start now, which is counted, and a renewal check for its own
      certificate otherwise; nothing else changes. */
  lemma LaunchedMeans(s: Slot, account: StoredAccount, recorded: nat, order: Order)
    requires Eligible(s, order) && order.retry == account.retry
    ensures var l := Launched(s, order, recorded);
      if MayIssue(s, order.at, order.profile, Some(account), order.at)
      then l == s.(busy := true, settled := false, writing := true,
                   job := Some(Issue(order.at, account.retry, recorded)),
                   dispatched := l.dispatched, status := l.status)
           && l.dispatched - 1 == s.dispatched && l.status == s.status.(attempts := l.status.attempts)
           && (s.status.attempts < U64_MAX ==> l.status.attempts - 1 == s.status.attempts)
           && (s.status.attempts >= U64_MAX ==> l.status.attempts == U64_MAX)
      else l == s.(busy := true, settled := false, job := Some(Ari(order.at, ChainOf(s.cached))))
           && MayCheck(s, order.at, Some(account), order.at)
  {
    DueMeans(s, order.at, order.profile, Some(account));
  }

  lemma LaunchedOk(s: Slot, account: Option<StoredAccount>, now: nat, recorded: nat, order: Order)
    requires SlotOk(s, account, now, recorded) && Registered(account) && order.at <= now
      && order.retry == account.value.retry
    requires Eligible(s, order)
    ensures var l := Launched(s, order, recorded);
            SlotOk(l, account, now, recorded) && NoOlder(s, l) && l.over == s.over
  {}

  /** Service by due time, then name, is a strict order, and hosts with different names are always ordered. */
  lemma EarlierIsOrder(a: Slot, b: Slot, c: Slot, order: Order)
    ensures !Earlier(a, a, order)
    ensures Earlier(a, b, order) && Earlier(b, c, order) ==> Earlier(a, c, order)
    ensures a.cached.dns != b.cached.dns ==> Earlier(a, b, order) || Earlier(b, a, order)
  {
    LessTotal(a.cached.dns, b.cached.dns);
    if Less(a.cached.dns, a.cached.dns) {
      LessAsymmetric(a.cached.dns, a.cached.dns);
    }
    if Less(a.cached.dns, b.cached.dns) && Less(b.cached.dns, c.cached.dns) {
      LessTransitive(a.cached.dns, b.cached.dns, c.cached.dns);
    }
  }

  /** Only idle hosts whose time had come were given jobs, and none was passed over for a later one. */
  ghost predicate Filled(before: seq<Slot>, after: seq<Slot>, order: Order, recorded: nat) {
    && |before| == |after|
    && (forall i :: 0 <= i < |after| ==>
        after[i] == before[i] || (Eligible(before[i], order) && after[i] == Launched(before[i], order, recorded)))
    && (forall i, k :: 0 <= i < |after| && 0 <= k < |after| && after[i] != before[i] && Eligible(after[k], order)
          ==> !Earlier(after[k], before[i], order))
  }

  /** A host that was served was due no later than any host that is still waiting, and comes first by name if they
      were due at the same moment. */
  lemma ServedFirst(before: seq<Slot>, after: seq<Slot>, order: Order, recorded: nat, i: nat, k: nat)
    requires Filled(before, after, order, recorded) && i < |after| && k < |after|
    requires after[i] != before[i] && Eligible(after[k], order)
    ensures DueIn(before[i], order).0 <= DueIn(before[k], order).0
    ensures DueIn(before[i], order).0 == DueIn(before[k], order).0 ==> !Less(before[k].cached.dns, before[i].cached.dns)
  {}

  lemma FilledKeeps(before: seq<Slot>, after: seq<Slot>, order: Order, recorded: nat)
    requires Filled(before, after, order, recorded)
    ensures NoneOlder(before, after)
  {}

  /** The hosts that were given a job. */
  ghost function Served(before: seq<Slot>, after: seq<Slot>): set<nat>
    requires |before| == |after|
  {
    set i | 0 <= i < |after| && after[i] != before[i]
  }

  /** Of two sets of the same size, neither has an element to itself unless both have. */
  lemma BothDiffer(a: set<nat>, b: set<nat>) returns (i: nat, k: nat)
    requires |a| == |b| && a != b
    ensures i in a && i !in b && k in b && k !in a
  {
    if a <= b {
      Overlap(a, b);
    }
    if b <= a {
      Overlap(b, a);
    }
    i :| i in a && i !in b;
    k :| k in b && k !in a;
  }

  lemma Overlap(a: set<nat>, b: set<nat>)
    requires |a| == |b| && a <= b
    ensures a == b
  {
    if k :| k in b && k !in a {
      Smaller(a, b - {k});
    }
  }

  lemma {:induction false} Smaller(a: set<nat>, b: set<nat>)
    requires a <= b
    ensures |a| <= |b|
  {
    if k :| k in a {
      Smaller(a - {k}, b - {k});
    }
  }

  /** Which hosts are served is determined by how many are: with different names there is only one order of service. */
  lemma ServiceIsDetermined(names: seq<string>, before: seq<Slot>, a: seq<Slot>, b: seq<Slot>, order: Order,
                            recorded: nat)
    requires AreNamed(before, names)
    requires Filled(before, a, order, recorded) && Filled(before, b, order, recorded)
    requires |Served(before, a)| == |Served(before, b)|
    ensures a == b
  {
    if Served(before, a) != Served(before, b) {
      var i, k := BothDiffer(Served(before, a), Served(before, b));
      assert Named(before[i], names[i]) && Named(before[k], names[k]) && names[i] != names[k];
      EarlierIsOrder(before[i], before[k], before[i], order);
    }
    forall i | 0 <= i < |before|
      ensures a[i] == b[i]
    {
      assert i in Served(before, a) <==> i in Served(before, b);
    }
  }

  ghost predicate AreEligible(rest: set<nat>, slots: seq<Slot>, order: Order) {
    forall i :: i in rest <==> 0 <= i < |slots| && Eligible(slots[i], order)
  }

  lemma FilledStep(before: seq<Slot>, now: seq<Slot>, rest: set<nat>, i: nat, order: Order, recorded: nat)
    requires Filled(before, now, order, recorded) && AreEligible(rest, now, order) && i in rest
    requires forall k :: k in rest ==> !Earlier(now[k], now[i], order)
    ensures var next := now[i := Launched(now[i], order, recorded)];
            Filled(before, next, order, recorded) && AreEligible(rest - {i}, next, order)
  {}

  /** After a success: the new certificate is stored and active, and its validity is the override. */
  function Delivered(s: Slot, record: StoredHost): Slot
    requires record.certificate.Some?
  {
    var generation := if s.durable == Some(record) then s.durableGen else s.durableGen + 1;
    s.(durable := Some(record), durableGen := generation, active := ChainOf(record), activeGen := Some(generation),
       writing := false, settled := true,
       over := Some(record.certificate.value.Validity()), published := Publication(None, true),
       status := s.status.(successes := SaturatingSucc(s.status.successes, U64_MAX),
                           installs := SaturatingSucc(s.status.installs, U64_MAX)))
  }

  lemma DeliveredOk(s: Slot, record: StoredHost, account: Option<StoredAccount>, now: nat, recorded: nat)
    requires SlotOk(s, account, now, recorded) && s.busy && s.job.value.Issue? && !s.settled && s.over.None?
    requires record.certificate.Some? && ValidCertificate(record.certificate.value)
    ensures SlotOk(Delivered(s, record), account, now, recorded) && NoOlder(s, Delivered(s, record))
  {}

  function Adopted(s: Slot): Slot
    requires s.durable.Some?
  {
    s.(cached := s.durable.value, cachedGen := s.durableGen,
       published := Publication(ChainOf(s.durable.value), true), over := None)
  }

  lemma AdoptedOk(s: Slot, account: Option<StoredAccount>, now: nat, recorded: nat)
    requires SlotOk(s, account, now, recorded) && s.over.Some? && s.settled
    ensures SlotOk(Adopted(s), account, now, recorded) && NoOlder(s, Adopted(s))
  {}

  /** A deferral takes its attempt back; any other failure is counted as one. */
  predicate Counts(a: Status, b: Status, kind: FailureKind) {
    && b.successes == a.successes
    && if kind.Deferred? then b.failures == a.failures && (a.attempts > 0 ==> b.attempts + 1 == a.attempts)
       else b.attempts == a.attempts && (a.failures < U64_MAX ==> b.failures == a.failures + 1)
  }

  function Failed(s: Slot, deferred: bool): Slot {
    var counts := if deferred then s.status.(attempts := if s.status.attempts > 0 then s.status.attempts - 1 else 0)
                  else s.status.(failures := SaturatingSucc(s.status.failures, U64_MAX));
    s.(settled := true, status := counts)
  }

  function Released(s: Slot): Slot
    requires s.durable.Some?
  {
    s.(cached := s.durable.value, cachedGen := s.durableGen, busy := false, job := None, settled := false,
       writing := false)
  }

  /** Every running issuance started at or before `at`. */
  predicate StartedBy(slots: seq<Slot>, at: nat) {
    forall k :: 0 <= k < |slots| && slots[k].job.Some? && slots[k].job.value.Issue? ==> slots[k].job.value.at <= at
  }

  function ShortestLifetime(slots: seq<Slot>): Option<nat> {
    if slots == [] then None else
    var last := slots[|slots| - 1].cached.certificate;
    var rest := ShortestLifetime(slots[..|slots| - 1]);
    if last.None? then rest
    else if rest.None? || last.value.Lifetime() < rest.value then Some(last.value.Lifetime())
    else rest
  }

  /** The shortest lifetime is one of a cached certificate and none is shorter; without certificates there is none. */
  lemma {:induction false} ShortestLifetimeIsLeast(slots: seq<Slot>)
    ensures var r := ShortestLifetime(slots);
      if r.None? then forall k :: 0 <= k < |slots| ==> slots[k].cached.certificate.None?
      else
        && (forall k :: 0 <= k < |slots| && slots[k].cached.certificate.Some? ==>
            r.value <= slots[k].cached.certificate.value.Lifetime())
        && (exists k :: 0 <= k < |slots| && slots[k].cached.certificate.Some? &&
                        r.value == slots[k].cached.certificate.value.Lifetime())
  {
    if slots != [] {
      ShortestLifetimeIsLeast(slots[..|slots| - 1]);
    }
  }

  /** The account's back-off after one more failure. */
  function Backoff(retry: RetryState, lifetime: Option<nat>, at: nat, hint: Option<int>,
                   draw: Result<nat>): (r: Result<RetryState>)
    ensures r.Ok? ==>
      && r.value.failures == SaturatingSucc(retry.failures, U32_MAX)
      && r.value.notBefore >= Max(retry.notBefore, at + 60)
      && (hint.Some? ==> hint.value <= r.value.notBefore * NANOS)
  {
    var failures := SaturatingSucc(retry.failures, U32_MAX);
    var delay :- Schedule.RetryDelay(failures, lifetime, draw);
    var floor :- Schedule.Add(at, delay);
    if hint.None? then Ok(RetryState(failures, Max(retry.notBefore, floor)))
    else if hint.value < 0 then Err(InvalidData) else
    var hinted :- Schedule.Add(hint.value / NANOS, if hint.value % NANOS != 0 then 1 else 0);
    Ok(RetryState(failures, Max(Max(retry.notBefore, floor), hinted)))
  }

  /** One more failure is counted. The floor is the least one that keeps the old floor, the base for the new count
      plus the draw, and the server's hint; it fails only without a legal draw or if it does not fit. */
  lemma BackoffMeans(retry: RetryState, lifetime: Option<nat>, at: nat, hint: Option<int>, draw: Result<nat>)
    ensures var r := Backoff(retry, lifetime, at, hint, draw);
      var failures := Min(retry.failures + 1, U32_MAX);
      var base := Schedule.RetryBase(failures, lifetime);
      && (r.Ok? <==>
            && draw.Ok? && draw.value <= base / 10 && at + base + draw.value <= I64_MAX
            && (hint.Some? ==> 0 <= hint.value <= I64_MAX * NANOS))
      && (r.Ok? ==>
            && r.value.failures == failures
            && (forall floor: nat :: r.value.notBefore <= floor <==>
                  && retry.notBefore <= floor
                  && at + base + draw.value <= floor
                  && (hint.Some? ==> hint.value <= floor * NANOS)))
  {}

  /** The account's back-off was raised for a failure seen between `from` and `to`. */
  ghost predicate Charged(before: Option<StoredAccount>, lifetime: Option<nat>, from: nat, to: nat, hint: Option<int>,
                          draw: Result<nat>, after: Option<StoredAccount>) {
    && before.Some? && after.Some?
    && exists at: nat ::
         from <= at <= to && Backoff(before.value.retry, lifetime, at, hint, draw) == Ok(after.value.retry)
  }

  lemma {:induction false} SameLifetimes(a: seq<Slot>, b: seq<Slot>)
    requires SameCached(a, b)
    ensures ShortestLifetime(a) == ShortestLifetime(b)
  {
    if a != [] {
      SameLifetimes(a[..|a| - 1], b[..|b| - 1]);
    }
  }

  /** What the answer, handled at `at`, makes of the record it is about. */
  ghost predicate AppliedAt(before: StoredHost, after: StoredHost, answer: Renewal.Answer, at: nat, draw: Result<nat>)
    requires before.certificate.Some?
  {
    var next := Renewal.AfterAnswer(before.certificate.value, answer, at, draw);
    if at >= before.certificate.value.notAfter then after == before
    else next.Ok? && after == before.(certificate := Some(next.value))
  }

  /** A renewal check leaves the record alone, unless it has an answer about the certificate that the host still
      has. That answer is applied at some moment between `from` and `to`. */
  ghost predicate Answered(before: StoredHost, after: StoredHost, generation: Option<Chain>,
                           answer: Option<Renewal.Answer>, from: nat, to: nat) {
    if answer.None? || before.certificate.None? || generation != ChainOf(before) then after == before
    else exists at: nat, draw :: from <= at <= to && AppliedAt(before, after, answer.value, at, draw)
  }

  /** An answer about a certificate that was replaced, or had expired when its check completed, changes nothing. */
  lemma StaleAnswerIsIgnored(before: StoredHost, after: StoredHost, generation: Option<Chain>,
                             answer: Option<Renewal.Answer>, from: nat, to: nat)
    requires Answered(before, after, generation, answer, from, to)
    requires generation != ChainOf(before) || before.certificate.None? || before.certificate.value.notAfter <= from
    ensures after == before
  {}

  /** An answer about the host's own certificate, handled before it expires, is stored: the record stays valid,
      the certificate itself does not change, and its next check is at least a minute away. */
  lemma CurrentAnswerIsStored(before: StoredHost, after: StoredHost, answer: Renewal.Answer, from: nat, to: nat)
    requires before.certificate.Some? && ValidCertificate(before.certificate.value)
    requires Answered(before, after, ChainOf(before), Some(answer), from, to)
    requires to < before.certificate.value.notAfter
    ensures after == before.(certificate := after.certificate) && after.certificate.Some?
    ensures ValidCertificate(after.certificate.value)
    ensures after.certificate.value.material == before.certificate.value.material
    ensures after.certificate.value.Validity() == before.certificate.value.Validity()
    ensures after.certificate.value.ariCheckAt >= from + 60
  {
    var at: nat, draw :| from <= at <= to && AppliedAt(before, after, answer, at, draw);
    Renewal.AnswersKeepValid(before.certificate.value, answer, at, draw);
  }

  /** Comparing back-offs has no false positive: if the account still has the back-off that the issuance was
      dispatched with, and it is not clear, no account failure has been recorded since. */
  lemma EqualBackoffIsUnchanged(s: Slot, account: Option<StoredAccount>, now: nat, recorded: nat)
    requires SlotOk(s, account, now, recorded) && s.busy && s.job.value.Issue?
    requires account.value.retry == s.job.value.accountRetry && account.value.retry.failures > 0
    ensures s.job.value.seen == recorded
  {}

  /** After housekeeping, an idle host whose certificate is valid has its durable certificate active,
      whichever attempt stored it and however that attempt ended. */
  lemma IdleHostServesDurable(s: Slot, account: Option<StoredAccount>, now: nat, recorded: nat, from: nat, to: nat)
    requires SlotOk(s, account, now, recorded) && Tended(s, from, to) && !s.busy && s.over.None?
    ensures s.published.done ==> s.durable.Some? && s.active == ChainOf(s.durable.value)
    ensures s.cached.certificate.Some? && s.cached.certificate.value.notBefore <= from
      && to < s.cached.certificate.value.notAfter
      ==> s.published.done && s.durable == Some(s.cached)
  {}

  // ----- the loop -----

  datatype Reset = Reset(seen: nat, recorded: nat)

  class Scheduler {
    const profile: Option<string>
    const names: seq<string>
    var slots: seq<Slot>
    var account: Option<StoredAccount>
    var jobs: set<JobId>
    var accountReady: bool
    var accountBusy: bool
    var now: nat
    var recorded: nat          // account failures recorded so far
    var resets: seq<Reset>
    ghost var rounds: nat         // rounds of dispatching so far

    /** Holds at every step: each host is in order and has a name of its own, the account job excludes readiness,
        and every reset of the account's back-off found no failure recorded after its issuance was dispatched. */
    ghost predicate Sound()
      reads this
    {
      && (forall i :: 0 <= i < |slots| ==> SlotOk(slots[i], account, now, recorded))
      && AreNamed(slots, names)
      && (accountReady ==> account.Some? && account.value.credentials.Some?)
      && (accountBusy ==> !accountReady)
      && (forall r :: r in resets ==> r.seen == r.recorded)
    }

    /** Holds at the top of the loop: the jobs are the busy hosts and the account job, at most two. */
    ghost predicate Valid()
      reads this
    {
      && Sound()
      && (forall i :: 0 <= i < |slots| ==> Quiet(slots[i]))
      && JobsAre(jobs, slots, accountBusy, None)
      && |jobs| <= 2
    }

    /** A scheduler over the records found in the store; certificates that are valid now are active already. */
    constructor (profile: Option<string>, names: seq<string>, stored: seq<Option<StoredHost>>,
                 account: Option<StoredAccount>, now: nat)
      requires Loadable(names, stored)
      ensures Valid() && this.names == names && |slots| == |names| && jobs == {} && !accountReady
      ensures forall i :: 0 <= i < |names| ==> slots[i] == Loaded(names[i], stored[i], now)
    {
      this.profile, this.names, this.account, this.now := profile, names, account, now;
      slots := seq(|names|, i requires 0 <= i < |names| => Loaded(names[i], stored[i], now));
      jobs, accountReady, accountBusy, recorded, resets, rounds := {}, false, false, 0, [], 0;
    }

    method Clock() returns (seconds: nat)
      requires Sound()
      modifies `now
      ensures Sound() && now == seconds >= old(now)
    {
      var passed: nat :| 0 <= passed;
      now := now + passed;
      seconds := now;
    }

    /** Replaces one host's slot; the others are untouched. */
    method Put(i: nat, s: Slot)
      requires Sound() && i < |slots| && SlotOk(s, account, now, recorded) && Named(s, names[i])
      modifies `slots
      ensures Sound() && slots == old(slots)[i := s]
      ensures Waits(old(slots)[i], s) ==> AllWait(old(slots), slots)
      ensures NoOlder(old(slots)[i], s) ==> NoneOlder(old(slots), slots)
    {
      slots := slots[i := s];
    }

    /** A running issuance saves its host's record, with or without a new certificate. */
    method JobSaves(i: nat)
      requires Sound() && i < |slots| && slots[i].writing
      modifies `slots
      ensures Sound() && AllWait(old(slots), slots)
    {
      var record: StoredHost, commits: bool := *, *;
      var s := slots[i];
      if record.dns != names[i] || (record.certificate.Some? && !ValidCertificate(record.certificate.value)) {
        return;
      }
      if commits {
        Put(i, s.(durable := Some(record), durableGen := s.durableGen + 1));
      } else if ChainOf(record) == (if s.durable.Some? then ChainOf(s.durable.value) else ChainOf(s.cached)) {
        Put(i, s.(durable := Some(record)));
      }
    }

    /** Time passes; saves of running issuances land; an account job that is still registering may save. */
    method Interfere()
      requires Sound()
      modifies `slots, `account, `now
      ensures Sound() && AllWait(old(slots), slots) && now >= old(now)
      ensures !old(accountBusy) || Registered(old(account)) ==> account == old(account)
    {
      var _ := Clock();
      for i := 0 to |slots|
        invariant Sound() && AllWait(old(slots), slots)
        invariant account == old(account) && now >= old(now)
      {
        if slots[i].writing {
          JobSaves(i);
        }
      }
      var saves: bool, record: StoredAccount := *, *;
      if accountBusy && !Registered(account) && saves {
        account := Some(record);
      }
    }

    /** Prepares the cached certificate, and activates and records it if it is valid now. */
    method PublishCache(i: nat, prepared: bool) returns (ok: bool)
      requires Sound() && i < |slots| && slots[i].over.None? && slots[i].cached.certificate.Some?
      requires slots[i].published.generation == ChainOf(slots[i].cached)
      modifies `slots, `now
      ensures Sound() && AllWait(old(slots), slots) && now >= old(now)
      ensures slots == old(slots)[i := slots[i]]
      ensures slots[i].published.generation == old(slots)[i].published.generation
      ensures ok && !slots[i].published.done ==>
        slots == old(slots) && !ValidAt(slots[i].cached.certificate.value, now)
      ensures Activates(old(slots)[i], slots[i], now, now)
      ensures ok == prepared
    {
      if !prepared {
        return false;
      }
      var seconds := Clock();
      var s := slots[i];
      if ValidAt(s.cached.certificate.value, seconds) {
        Put(i, s.(active := ChainOf(s.cached), activeGen := Some(s.cachedGen),
                  published := Publication(s.published.generation, true),
                  status := s.status.(installs := SaturatingSucc(s.status.installs, U64_MAX))));
      }
      return true;
    }

    /** A cached certificate of another generation has not been published yet. */
    method Notice(i: nat)
      requires Sound() && i < |slots| && slots[i].over.None?
      modifies `slots
      ensures Sound() && AllWait(old(slots), slots)
      ensures slots == old(slots)[i := old(slots)[i].(published := slots[i].published)]
      ensures slots[i].published.generation == ChainOf(slots[i].cached)
      ensures slots[i].published.done <==>
        old(slots)[i].published.done && old(slots)[i].published.generation == ChainOf(slots[i].cached)
    {
      var s := slots[i];
      if s.published.generation != ChainOf(s.cached) {
        Put(i, s.(published := Publication(ChainOf(s.cached), false)));
      }
    }

    method Publish(i: nat, started: nat) returns (ok: bool)
      requires Sound() && i < |slots| && started <= now && slots[i].over.None?
      modifies `slots, `now
      ensures Sound() && AllWait(old(slots), slots) && now >= old(now)
      ensures slots == old(slots)[i := slots[i]] && Activates(old(slots)[i], slots[i], started, now)
      ensures !ok ==> Unpublished(old(slots)[i], started)
      ensures ok ==> Tended(slots[i], started, now)
    {
      Notice(i);
      if slots[i].published.done || slots[i].cached.certificate.None?
          || !ValidAt(slots[i].cached.certificate.value, started) {
        return true;
      }
      var prepared: bool := *;
      ok := PublishCache(i, prepared);
    }

    /** Reports the state of the override or else of the cached certificate; ready only if installed. */
    method Report(i: nat, started: nat)
      requires Sound() && i < |slots|
      modifies `slots, `now
      ensures Sound() && AllWait(old(slots), slots) && now >= old(now)
      ensures slots == old(slots)[i := old(slots)[i].(status := slots[i].status)]
      ensures slots[i].status == old(slots)[i].status.(state := Shown(old(slots)[i], started, now))
      ensures slots[i].status.state.Ready? ==> slots[i].published.done
    {
      var s := slots[i];
      if s.over.None? {
        var _ := Clock();
      }
      Put(i, s.(status := s.status.(state := Shown(s, started, now))));
    }

    /** Housekeeping for one host: notice a new generation, activate it when valid, report its state. */
    method Tend(i: nat, started: nat) returns (ok: bool)
      requires Sound() && i < |slots| && started <= now
      modifies `slots, `now
      ensures Sound() && AllWait(old(slots), slots) && now >= old(now)
      ensures forall k :: 0 <= k < |slots| && k != i ==> slots[k] == old(slots)[k]
      ensures Activates(old(slots)[i], slots[i], started, now)
      ensures !ok ==> Unpublished(old(slots)[i], started)
      ensures ok ==> Tended(slots[i], started, now) && (slots[i].status.state.Ready? ==> slots[i].published.done)
    {
      if slots[i].over.None? {
        ok := Publish(i, started);
        if !ok {
          return;
        }
      }
      Report(i, started);
      return true;
    }

    method Housekeeping() returns (ok: bool, started: nat)
      requires Sound()
      modifies `slots, `now
      ensures Sound() && AllWait(old(slots), slots) && old(now) <= started <= now
      ensures forall i :: 0 <= i < |slots| ==> Activates(old(slots)[i], slots[i], started, now)
      ensures !ok ==> exists i :: 0 <= i < |slots| && Unpublished(old(slots)[i], started)
      ensures ok ==> forall i :: 0 <= i < |slots| ==>
        Tended(slots[i], started, now) && (slots[i].status.state.Ready? ==> slots[i].published.done)
    {
      started := Clock();
      for i := 0 to |slots|
        invariant Sound() && AllWait(old(slots), slots) && old(now) <= started <= now
        invariant forall k :: 0 <= k < |slots| ==> Activates(old(slots)[k], slots[k], started, now)
        invariant forall k :: i <= k < |slots| ==> slots[k] == old(slots)[k]
        invariant forall k :: 0 <= k < i ==>
          Tended(slots[k], started, now) && (slots[k].status.state.Ready? ==> slots[k].published.done)
      {
        ok := Tend(i, started);
        if !ok {
          return;
        }
      }
      ok := true;
    }

    /** Waits for a storage operation that will give `result`, keeping house in the meantime; both must go well. */
    method Storage(result: bool) returns (ok: bool, ghost kept: bool)
      requires Sound()
      modifies `slots, `account, `now
      ensures Sound() && AllWait(old(slots), slots) && now >= old(now)
      ensures !old(accountBusy) || Registered(old(account)) ==> account == old(account)
      ensures ok == (result && kept)
    {
      kept := true;
      var passes: nat :| passes > 0;
      while passes > 0
        invariant Sound() && AllWait(old(slots), slots) && now >= old(now) && kept
        invariant !old(accountBusy) || Registered(old(account)) ==> account == old(account)
      {
        var tended, _ := Housekeeping();
        kept := tended;
        if !tended {
          return false, kept;
        }
        Interfere();
        passes := passes - 1;
      }
      ok := result;
    }

    /** The candidate that sorts first. */
    method First(candidates: set<nat>, at: nat) returns (best: nat)
      requires account.Some? && candidates != {} && forall c :: c in candidates ==> c < |slots|
      ensures best in candidates
      ensures forall c :: c in candidates ==> !Earlier(slots[c], slots[best], Order(at, profile, account.value.retry))
    {
      var order := Order(at, profile, account.value.retry);
      best :| best in candidates;
      var rest := candidates - {best};
      EarlierIsOrder(slots[best], slots[best], slots[best], order);
      while rest != {}
        invariant rest <= candidates && best in candidates
        invariant forall c :: c in candidates && c !in rest ==> !Earlier(slots[c], slots[best], order)
        decreases rest
      {
        var c :| c in rest;
        if Earlier(slots[c], slots[best], order) {
          forall d | d in candidates && d !in rest
            ensures !Earlier(slots[d], slots[c], order)
          {
            EarlierIsOrder(slots[d], slots[c], slots[best], order);
          }
          EarlierIsOrder(slots[c], slots[c], slots[c], order);
          best := c;
        }
        rest := rest - {c};
      }
    }

    /** Starts the job that host `i` wants. */
    method Launch(i: nat, at: nat)
      requires Valid() && at <= now && accountReady && |jobs| < 2
      requires i < |slots| && Eligible(slots[i], Order(at, profile, account.value.retry))
      modifies `slots, `jobs
      ensures Valid() && |jobs| == |old(jobs)| + 1 && NoneOlder(old(slots), slots)
      ensures slots == old(slots)[i := Launched(old(slots)[i], Order(at, profile, account.value.retry), recorded)]
    {
      LaunchedOk(slots[i], account, now, recorded, Order(at, profile, account.value.retry));
      Put(i, Launched(slots[i], Order(at, profile, account.value.retry), recorded));
      jobs := jobs + {OnHost(i)};
    }

    /** Starts due host jobs, the earliest first, until two jobs run. */
    method Fill(at: nat)
      requires Valid() && at <= now && accountReady
      modifies `slots, `jobs
      ensures Valid() && Filled(old(slots), slots, Order(at, profile, account.value.retry), recorded)
      ensures |jobs| == 2 || AreEligible({}, slots, Order(at, profile, account.value.retry))
    {
      var order := Order(at, profile, account.value.retry);
      var rest := set i | 0 <= i < |slots| && Eligible(slots[i], order);
      while |jobs| < 2 && rest != {}
        invariant Valid() && Filled(old(slots), slots, order, recorded) && AreEligible(rest, slots, order)
        decreases rest
      {
        var i := First(rest, at);
        FilledStep(old(slots), slots, rest, i, order, recorded);
        Launch(i, at);
        rest := rest - {i};
      }
    }

    method StartAccount()
      requires Valid() && !accountReady && !accountBusy && |jobs| < 2
      modifies `jobs, `accountBusy
      ensures Valid() && accountBusy
    {
      accountBusy := true;
      jobs := jobs + {OnAccount};
    }

    /** Starts what is due: the account job if the account is not ready, host jobs otherwise. */
    method Dispatch(at: nat)
      requires Valid() && at <= now
      modifies `slots, `jobs, `accountBusy, `rounds
      ensures rounds == old(rounds) + 1
      ensures Valid() && NoneOlder(old(slots), slots)
      ensures !accountReady ==> slots == old(slots)
      ensures accountReady ==>
        && Filled(old(slots), slots, Order(at, profile, account.value.retry), recorded)
        && (|jobs| == 2 || AreEligible({}, slots, Order(at, profile, account.value.retry)))
      ensures accountBusy <==>
        || old(accountBusy)
        || (!accountReady && |old(jobs)| < 2 && SomeDue(slots, at, profile, AccountFloor(account)))
    {
      rounds := rounds + 1;
      if accountReady {
        Fill(at);
        FilledKeeps(old(slots), slots, Order(at, profile, account.value.retry), recorded);
      } else if |jobs| < 2 && !accountBusy && SomeDue(slots, at, profile, AccountFloor(account)) {
        StartAccount();
      }
    }

    /** Job `id` has completed and its outcome is being handled. */
    ghost predicate Handling(id: JobId)
      reads this
    {
      && Sound() && |jobs| <= 1 && Wants(id, slots, accountBusy)
      && JobsAre(jobs, slots, accountBusy, Some(id))
      && (forall k :: 0 <= k < |slots| && id != OnHost(k) ==> Quiet(slots[k]))
    }

    /** Some job completes. */
    method Complete() returns (id: JobId)
      requires Valid() && jobs != {}
      modifies `jobs
      ensures Handling(id) && (id.OnHost? ==> Quiet(slots[id.index]))
    {
      id :| id in jobs;
      jobs := jobs - {id};
    }

    /** Waits for a job to complete, or for the next moment something may be due. */
    method Wait() returns (completed: Option<JobId>)
      requires Valid()
      modifies `slots, `account, `now, `jobs
      ensures completed.None? ==> Valid()
      ensures completed.Some? ==>
        Handling(completed.value) && (completed.value.OnHost? ==> Quiet(slots[completed.value.index]))
      ensures NoneOlder(old(slots), slots) && now >= old(now)
    {
      Interfere();
      var ready: bool := *;
      if jobs == {} || !ready {
        return None;
      }
      var id := Complete();
      return Some(id);
    }

    /** The account job has completed; it succeeds only with an account that the CA has registered. */
    method FinishAccount(succeeded: bool)
      requires Handling(OnAccount) && (succeeded ==> Registered(account))
      modifies `accountBusy, `accountReady
      ensures Valid() && !accountBusy && accountReady == succeeded
    {
      accountBusy, accountReady := false, succeeded;
    }

    /** Storage work while the outcome of host `i`'s job is handled. */
    method Await(i: nat) returns (ok: bool)
      requires Handling(OnHost(i))
      modifies `slots, `account, `now
      ensures Handling(OnHost(i)) && AllWait(old(slots), slots) && now >= old(now)
      ensures Registered(old(account)) ==> account == old(account)
    {
      var result: bool := *;
      var stored, _ := Storage(result);
      ok := stored;
    }

    /** Changes the slot of the host whose outcome is handled. */
    method Update(i: nat, s: Slot)
      requires Handling(OnHost(i)) && SlotOk(s, account, now, recorded) && s.busy && Named(s, names[i])
      modifies `slots
      ensures Handling(OnHost(i)) && slots == old(slots)[i := s]
      ensures NoOlder(old(slots)[i], s) ==> NoneOlder(old(slots), slots)
    {
      Put(i, s);
    }

    /** The job is over: the host's cached record is what is stored, and the host is idle. */
    method Release(i: nat)
      requires Handling(OnHost(i)) && slots[i].over.None? && slots[i].durable.Some? && !slots[i].writing
      requires slots[i].job.value.Issue? ==> slots[i].settled
      modifies `slots
      ensures Valid() && slots == old(slots)[i := Released(old(slots)[i])] && NoneOlder(old(slots), slots)
    {
      Put(i, Released(slots[i]));
    }

    /** Reads the host's record after its job has ended. */
    method Reload(i: nat) returns (ok: bool)
      requires Handling(OnHost(i))
      modifies `slots, `account, `now
      ensures Handling(OnHost(i)) && NoneOlder(old(slots), slots) && now >= old(now)
      ensures Registered(old(account)) ==> account == old(account)
      ensures slots[i].job == old(slots)[i].job && slots[i].settled == old(slots)[i].settled && !slots[i].writing
      ensures slots[i].over == old(slots)[i].over
      ensures !old(slots)[i].writing ==> slots[i].durable == old(slots)[i].durable
      ensures Newer(old(slots)[i], slots[i]) && SameCounts(old(slots)[i].status, slots[i].status)
      ensures SameCached(old(slots), slots)
      ensures ok ==> slots[i].durable.Some?
    {
      ok := Await(i);
      Update(i, slots[i].(writing := false));
      ok := ok && slots[i].durable.Some?;
    }

    /** A successful issuance has committed `record` and activated its certificate: until the record is read
        back, the override speaks for the host. */
    method Deliver(i: nat, record: StoredHost)
      requires Handling(OnHost(i)) && slots[i].job.value.Issue? && Quiet(slots[i])
      requires record.dns == names[i] && record.certificate.Some? && ValidCertificate(record.certificate.value)
      modifies `slots
      ensures Handling(OnHost(i)) && slots == old(slots)[i := Delivered(old(slots)[i], record)]
        && NoneOlder(old(slots), slots)
      ensures
        && slots[i].status.successes == SaturatingSucc(old(slots)[i].status.successes, U64_MAX)
        && slots[i].status.installs == SaturatingSucc(old(slots)[i].status.installs, U64_MAX)
        && slots[i].durable == Some(record) && slots[i].active == ChainOf(record)
    {
      DeliveredOk(slots[i], record, account, now, recorded);
      Update(i, Delivered(slots[i], record));
    }

    /** The stored record is read back and takes over from the override. */
    method Adopt(i: nat)
      requires Handling(OnHost(i)) && slots[i].over.Some? && slots[i].settled
      modifies `slots
      ensures Handling(OnHost(i)) && slots == old(slots)[i := Adopted(old(slots)[i])] && NoneOlder(old(slots), slots)
      ensures slots[i].over.None? && slots[i].published == Publication(ChainOf(old(slots)[i].durable.value), true)
      ensures slots[i].durable == old(slots)[i].durable == Some(slots[i].cached)
    {
      AdoptedOk(slots[i], account, now, recorded);
      Update(i, Adopted(slots[i]));
    }

    /** Counts a failed attempt, or takes back a deferred one. */
    method Count(i: nat, deferred: bool)
      requires Handling(OnHost(i)) && slots[i].job.value.Issue? && Quiet(slots[i])
      modifies `slots
      ensures Handling(OnHost(i)) && slots == old(slots)[i := Failed(old(slots)[i], deferred)]
        && NoneOlder(old(slots), slots)
    {
      Update(i, Failed(slots[i], deferred));
    }

    /** Clears the account's back-off, which is still what it was when the issuance was dispatched. */
    method ClearBackoff(i: nat) returns (ok: bool)
      requires Handling(OnHost(i)) && slots[i].job.value.Issue?
      requires account.value.retry == slots[i].job.value.accountRetry && account.value.retry.failures > 0
      modifies `slots, `account, `now, `resets
      ensures Handling(OnHost(i)) && AllWait(old(slots), slots) && now >= old(now)
      ensures ok ==>
        && account == Some(old(account.value).(retry := Fresh))
        && resets == old(resets) + [Reset(slots[i].job.value.seen, recorded)]
    {
      EqualBackoffIsUnchanged(slots[i], account, now, recorded);
      ok := Await(i);
      if ok {
        resets := resets + [Reset(slots[i].job.value.seen, recorded)];
        account := Some(account.value.(retry := Fresh));
      }
    }

    /** A success resets the account's back-off if that is still what it was at dispatch. */
    method ResetAccount(i: nat) returns (ok: bool)
      requires Handling(OnHost(i)) && slots[i].job.value.Issue?
      modifies `slots, `account, `now, `resets
      ensures Handling(OnHost(i)) && AllWait(old(slots), slots) && now >= old(now)
      ensures ok ==>
        var retry := old(account.value.retry);
        var unchangedSince := retry == slots[i].job.value.accountRetry && retry.failures > 0;
        && account == Some(old(account.value).(retry := if unchangedSince then Fresh else old(account.value.retry)))
        && resets == old(resets) + (if unchangedSince then [Reset(slots[i].job.value.seen, recorded)] else [])
    {
      ok := Await(i);
      if ok && account.value.retry == slots[i].job.value.accountRetry && account.value.retry.failures > 0 {
        ok := ClearBackoff(i);
      }
    }

    /** The account's raised back-off is stored, and the account has to be checked again. */
    method Charge(i: nat, at: nat, retry: RetryState) returns (ok: bool)
      requires Handling(OnHost(i)) && Registered(account) && StartedBy(slots, at) && retry.notBefore > at
      modifies `slots, `account, `now, `recorded, `accountReady
      ensures Handling(OnHost(i)) && AllWait(old(slots), slots) && now >= old(now)
      ensures ok ==>
        account == Some(old(account).value.(retry := retry)) && recorded == old(recorded) + 1 && !accountReady
    {
      ok := Await(i);
      if ok {
        account := Some(account.value.(retry := retry));
        recorded := recorded + 1;
        accountReady := false;
      }
    }

    /** An account failure, seen at time `at`, pushes the account's floor past every running issuance's start. */
    method RecordFailure(i: nat, at: nat, hint: Option<int>, draw: Result<nat>) returns (ok: bool)
      requires Handling(OnHost(i)) && slots[i].job.value.Issue? && StartedBy(slots, at)
      modifies `slots, `account, `now, `recorded, `accountReady
      ensures Handling(OnHost(i)) && AllWait(old(slots), slots) && now >= old(now)
      ensures ok ==>
        && !accountReady && recorded == old(recorded) + 1
        && account.value.retry.failures == SaturatingSucc(old(account.value.retry.failures), U32_MAX)
        && account.value.retry.notBefore >= Max(old(account.value.retry.notBefore), at + 60)
        && (hint.Some? ==> hint.value <= account.value.retry.notBefore * NANOS)
        && Backoff(old(account.value.retry), ShortestLifetime(old(slots)), at, hint, draw) == Ok(account.value.retry)
    {
      ok := Await(i);
      SameLifetimes(old(slots), slots);
      var retry := Backoff(account.value.retry, ShortestLifetime(slots), at, hint, draw);
      if !ok || retry.Err? {
        return false;
      }
      ok := Charge(i, at, retry.value);
    }

    /** The end of a successful issuance. */
    method Succeed(i: nat, record: StoredHost) returns (ok: bool)
      requires Handling(OnHost(i)) && slots[i].job.value.Issue? && Quiet(slots[i])
      requires record.dns == names[i] && record.certificate.Some? && ValidCertificate(record.certificate.value)
      modifies `slots, `account, `now, `resets
      ensures Sound() && NoneOlder(old(slots), slots) && now >= old(now)
      ensures ok ==> Valid() && slots[i].durable == Some(record) && !slots[i].busy
      ensures ok ==>
        && slots[i].status.successes == SaturatingSucc(old(slots)[i].status.successes, U64_MAX)
        && slots[i].status.failures == old(slots)[i].status.failures
        && slots[i].status.attempts == old(slots)[i].status.attempts
        && var j := old(slots)[i].job.value;
        if old(account.value.retry) == j.accountRetry && j.accountRetry.failures > 0
        then account == Some(old(account).value.(retry := Fresh)) && j.seen == recorded
        else account == old(account)
    {
      Deliver(i, record);
      ok := Reload(i);
      if ok {
        Adopt(i);
        ok := ResetAccount(i);
        if ok {
          Release(i);
        }
      }
    }

    /** Counts a failure that was seen at `at`, charges the account if that is to blame, and frees the host. */
    method Blame(i: nat, at: nat, kind: FailureKind, hint: Option<int>, draw: Result<nat>) returns (ok: bool)
      requires Handling(OnHost(i)) && slots[i].job.value.Issue? && Quiet(slots[i]) && StartedBy(slots, at)
      requires slots[i].durable.Some? && !slots[i].writing
      modifies `slots, `account, `now, `recorded, `accountReady
      ensures Sound() && NoneOlder(old(slots), slots) && now >= old(now)
      ensures ok ==> Valid() && !slots[i].busy && slots[i].durable == old(slots)[i].durable
      ensures ok ==> slots[i].durableGen == old(slots)[i].durableGen
      ensures ok ==> Counts(old(slots)[i].status, slots[i].status, kind)
      ensures ok && kind.Account? ==>
        && !accountReady && recorded == old(recorded) + 1 && account.Some?
        && Backoff(old(account.value.retry), ShortestLifetime(old(slots)), at, hint, draw) == Ok(account.value.retry)
      ensures !kind.Account? ==> ok && account == old(account) && accountReady == old(accountReady)
    {
      Count(i, kind.Deferred?);
      ok := true;
      if kind.Account? {
        SameLifetimes(old(slots), slots);
        ok := RecordFailure(i, at, hint, draw);
      }
      if ok {
        Release(i);
      }
    }

    /** The end of a failed issuance, however far it came. */
    method Fail(i: nat, kind: FailureKind, hint: Option<int>, draw: Result<nat>) returns (ok: bool)
      requires Handling(OnHost(i)) && slots[i].job.value.Issue? && Quiet(slots[i])
      modifies `slots, `account, `now, `recorded, `accountReady
      ensures Sound() && NoneOlder(old(slots), slots) && now >= old(now)
      ensures ok ==> Valid() && !kind.State? && !slots[i].busy
      ensures ok && kind.Account? ==>
        && !accountReady && recorded == old(recorded) + 1
        && Charged(old(account), ShortestLifetime(old(slots)), old(now), now, hint, draw, account)
      ensures ok ==> Counts(old(slots)[i].status, slots[i].status, kind)
      ensures !kind.Account? ==> account == old(account) && accountReady == old(accountReady)
      ensures ok ==>
        && Newer(old(slots)[i], slots[i])
        && slots[i].durable == Some(slots[i].cached) && slots[i].cachedGen == slots[i].durableGen
    {
      if kind.State? {
        return false;
      }
      ok := Reload(i);
      if ok {
        var at := Clock();
        SameLifetimes(old(slots), slots);
        ok := Blame(i, at, kind, hint, draw);
      }
    }

    /** Stores what the answer says about the certificate it was asked for, if that is still the host's. */
    method Apply(i: nat, answer: Renewal.Answer, at: nat, draw: Result<nat>) returns (ok: bool)
      requires Handling(OnHost(i)) && slots[i].job.value.Ari? && Quiet(slots[i]) && slots[i].durable.Some?
      modifies `slots, `account, `now
      ensures Handling(OnHost(i)) && NoneOlder(old(slots), slots) && now >= old(now)
      ensures slots[i].durable.Some? && Quiet(slots[i]) && slots[i].job == old(slots)[i].job
      ensures !ok ==>
        && slots[i].job.value.generation == ChainOf(old(slots)[i].cached)
        && old(slots)[i].cached.certificate.Some? && at < old(slots)[i].cached.certificate.value.notAfter
      ensures ok ==>
        Answered(old(slots)[i].durable.value, slots[i].durable.value, slots[i].job.value.generation,
                 Some(answer), at, at)
    {
      var s := slots[i];
      if ChainOf(s.cached).None? || s.job.value.generation != ChainOf(s.cached)
          || at >= s.cached.certificate.value.notAfter {
        assert s.cached.certificate.Some? && at >= s.cached.certificate.value.notAfter ==>
            AppliedAt(s.cached, s.cached, answer, at, draw);
        return true;
      }
      var next := Renewal.AfterAnswer(s.cached.certificate.value, answer, at, draw);
      if next.Err? {
        return false;
      }
      Renewal.AnswersKeepValid(s.cached.certificate.value, answer, at, draw);
      ok := Await(i);
      var host := s.cached.(certificate := Some(next.value));
      assert AppliedAt(s.cached, host, answer, at, draw);
      Update(i, slots[i].(durable := Some(host), cached := host));
    }

    /** The end of a renewal check; `None` is a check that was aborted. */
    method Renew(i: nat, answer: Option<Renewal.Answer>, draw: Result<nat>) returns (ok: bool)
      requires Handling(OnHost(i)) && slots[i].job.value.Ari? && Quiet(slots[i])
      modifies `slots, `account, `now
      ensures Sound() && NoneOlder(old(slots), slots) && now >= old(now)
      ensures ok ==> Valid() && slots[i].durable.Some? && old(slots)[i].durable.Some? && !slots[i].busy
      ensures ok ==>
        Answered(old(slots)[i].durable.value, slots[i].durable.value, old(slots)[i].job.value.generation,
                 answer, old(now), now)
    {
      if answer.Some? && answer.value.Failed? && answer.value.kind.State? {
        return false;
      }
      ok := Reload(i);
      if !ok {
        return;
      }
      var at := Clock();
      if answer.Some? {
        ok := Apply(i, answer.value, at, draw);
      }
      if ok {
        Release(i);
      }
    }

    /** The outcome of the account job: a success has left a registered account in the store. */
    method AccountOutcome() returns (ok: bool)
      requires Handling(OnAccount)
      modifies `accountBusy, `accountReady
      ensures Sound()
      ensures ok ==> Valid()
    {
      var succeeded: bool, fatal: bool := *, *;
      if !fatal {
        FinishAccount(succeeded && Registered(account));
      }
      return !fatal;
    }

    /** The outcome of a host's job: a success has stored a record that the store accepts. */
    method HostOutcome(i: nat) returns (ok: bool)
      requires Handling(OnHost(i)) && Quiet(slots[i])
      modifies `slots, `account, `now, `recorded, `accountReady, `resets
      ensures Sound() && NoneOlder(old(slots), slots)
      ensures ok ==> Valid()
    {
      var broken: bool, draw := *, Err(Other);
      var jitter: nat :| 0 <= jitter;
      if !broken {
        draw := Ok(jitter);
      }
      if slots[i].job.value.Ari? {
        var answer: Option<Renewal.Answer> := *;
        ok := Renew(i, answer, draw);
      } else {
        var succeeded: bool, record: StoredHost, kind: FailureKind, hint: Option<int> := *, *, *, *;
        if succeeded && record.dns == names[i]
           && record.certificate.Some? && ValidCertificate(record.certificate.value) {
          ok := Succeed(i, record);
        } else {
          ok := Fail(i, kind, hint, draw);
        }
      }
    }

    /** Reads the account and keeps house. */
    method Prepare() returns (ok: bool, at: nat)
      requires Valid()
      modifies `slots, `account, `now
      ensures Sound() && NoneOlder(old(slots), slots)
      ensures ok ==> Valid() && at <= now && forall i :: 0 <= i < |slots| ==> Tended(slots[i], at, now)
    {
      at := 0;
      var result: bool := *;
      var stored, _ := Storage(result);
      ok := stored;
      if ok {
        ok, at := Housekeeping();
      }
    }

    /** One turn of the loop: keep house, start what is due, and handle a completed job. */
    method Round() returns (ok: bool)
      requires Valid()
      modifies `slots, `account, `jobs, `accountReady, `accountBusy, `now, `recorded, `resets, `rounds
      ensures Sound() && NoneOlder(old(slots), slots)
      ensures ok ==> Valid() && rounds == old(rounds) + 1
    {
      var at: nat;
      ok, at := Prepare();
      if !ok {
        return;
      }
      Dispatch(at);
      var completed := Wait();
      if completed.Some? {
        match completed.value
        case OnAccount => ok := AccountOutcome();
        case OnHost(i) => ok := HostOutcome(i);
      }
    }

    /** The scheduler loop, for any number of turns and until a fatal error. */
    method Drive(turns: nat) returns (running: bool)
      requires Valid()
      modifies `slots, `account, `jobs, `accountReady, `accountBusy, `now, `recorded, `resets, `rounds
      ensures Sound() && NoneOlder(old(slots), slots)
      ensures running ==> Valid() && rounds == old(rounds) + turns
    {
      running := true;
      for turn := 0 to turns
        invariant Sound() && NoneOlder(old(slots), slots)
        invariant running && Valid() && rounds == old(rounds) + turn
      {
        running := Round();
        if !running {
          return;
        }
      }
    }
  }

  /** Loads the configured hosts one by one; a repeated name, or a record that does not fit, is refused. */
  method Load(profile: Option<string>, names: seq<string>, stored: seq<Option<StoredHost>>,
              account: Option<StoredAccount>, now: nat) returns (r: Option<Scheduler>)
    requires |names| == |stored|
    ensures r.Some? <==> Loadable(names, stored)
    ensures r.Some? ==> fresh(r.value) && r.value.Valid() && r.value.names == names && r.value.jobs == {}
    ensures r.Some? ==> forall i :: 0 <= i < |names| ==> r.value.slots[i] == Loaded(names[i], stored[i], now)
  {
    for k := 0 to |names|
      invariant Loadable(names[..k], stored[..k])
    {
      if names[k] in names[..k] || !Stored(names[k], stored[k]) {
        return None;
      }
    }
    assert names[..|names|] == names && stored[..|stored|] == stored;
    var scheduler := new Scheduler(profile, names, stored, account, now);
    return Some(scheduler);
  }
}
