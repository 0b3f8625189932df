/** One issuance attempt (`attempt` and `Driver` in `issuer/mod.rs`): durable intent before every CA
    step, a bounded polling loop, and a commit before activation. */
module Attempts {
  import opened Types
  import opened Issuance
  import opened Issuer
  import Schedule

  /** The polling interval after `waits` waits, in seconds. */
  function Interval(waits: nat): nat {
    match waits
    case 0 => 2
    case 1 => 4
    case 2 => 8
    case 3 => 16
    case _ => 30
  }

  /** The least time spent in `waits` waits, in seconds. */
  function Waited(waits: nat): nat {
    if waits == 0 then 0 else Waited(waits - 1) + Interval(waits - 1)
  }

  lemma {:induction false} WaitedClosedForm(waits: nat)
    ensures waits >= 4 ==> Waited(waits) == 30 * (waits - 3)
  {
    if waits > 4 {
      WaitedClosedForm(waits - 1);
    } else if waits == 4 {
      assert Waited(2) == 6;
    }
  }

  /** Sleeping through one more wait within the budget leaves room for one more refresh. */
  lemma RefreshBudget(waits: nat, slept: nat)
    requires slept >= Waited(waits) * NANOS
    ensures slept + Interval(waits) * NANOS < BUDGET ==> waits < MAX_REFRESHES
  {
    WaitedClosedForm(waits + 1);
  }

  /** The order with what has become known of it. */
  function Learned(o: PendingOrder, url: Url, expires: Option<nat>): PendingOrder {
    o.(url := Some(url), expires := if expires.Some? then expires else o.expires)
  }

  lemma LearnedKeeps(h: StoredHost, a: Attempt, url: Url, expires: Option<nat>)
    requires Keeps(h, a, h) && h.order.Some?
    requires Some(url) == if h.order.value.url.None? then a.given else h.order.value.url
    ensures Keeps(h, a, h.(order := Some(Learned(h.order.value, url, expires))))
  {}

  /** Saving and sleeping touch nothing else in the attempt's bookkeeping. */
  predicate OnlySlept(a: Attempt, b: Attempt) {
    b == a.(slept := b.slept, given := b.given, persisted := b.persisted) && b.slept >= a.slept
  }

  /** How long to sleep: the pause, or until the CA's hint if that is later. */
  function Pause(pause: nat, hint: Option<int>, now: int): (length: nat)
    ensures length >= pause && (hint.Some? ==> now + length >= hint.value)
    ensures length == pause || (hint.Some? && now + length == hint.value)
  {
    if hint.Some? && hint.value - now > pause then hint.value - now else pause
  }

  /** What is acceptable as a report on the host's order. */
  predicate Acceptable(snapshot: Snapshot, host: StoredHost, replacement: Option<string>)
    requires host.order.Some?
  {
    && snapshot.wellFormed
    && snapshot.dns == host.dns && snapshot.replacing == replacement
    && (snapshot.status.Pending? || snapshot.status.Valid? ==> snapshot.expires.Some?)
    && (snapshot.expires.Some? ==> IsTimestamp(snapshot.expires.value))
    && (host.order.value.url.Some? ==> host.order.value.url == Some(snapshot.url))
  }

  /** The account is registered with this directory under its own key. */
  predicate Usable(account: Option<StoredAccount>, directory: string) {
    account.Some? && account.value.credentials == Some(Credentials(Some(directory), account.value.key))
  }

  /** What the loop does after acting on a status: stop, look again at once, or wait and refresh. */
  datatype Verdict =
    | Finished(validity: CertificateValidity)
    | Finalized(snapshot: Snapshot)
    | Waiting(acknowledged: bool, leased: bool)

  /** The configuration, the identifier that ARI uses for a certificate, and the installer's preparation. */
  datatype Setting = Setting(
    directory: string,
    profile: Option<string>,
    identifier: CertificateMaterial -> Option<string>,
    prepare: CertificateMaterial -> Option<CertificateValidity>)
  {
    /** The identifier of the certificate that would be replaced. */
    function Replaceable(host: StoredHost): Option<string> {
      if host.certificate.None? then None else identifier(host.certificate.value.material)
    }
  }

  class Driver {
    const world: World
    const engine: Engine
    const setting: Setting
    const delay: nat
    const deadline: nat
    var host: StoredHost

    constructor (world: World, engine: Engine, setting: Setting, delay: nat, deadline: nat, host: StoredHost)
      ensures this.world == world && this.engine == engine && this.setting == setting
      ensures this.delay == delay && this.deadline == deadline && this.host == host
    {
      this.world, this.engine, this.setting := world, engine, setting;
      this.delay, this.deadline, this.host := delay, deadline, host;
    }

    /** The reservation is durable, the success commit is not, and `host` may be saved. */
    ghost predicate Live()
      reads this, world
    {
      && engine.world == world
      && world.Valid()
      && world.s.attempt.Some? && world.s.host.Some?
      && var a := world.s.attempt.value;
      && a.reserved && !a.committed && a.profile == setting.profile
      && deadline >= BUDGET && world.mono >= deadline - BUDGET + a.slept
      && host.retry.failures >= 1
      && Keeps(world.s.host.value, a, host)
    }

    ghost predicate Synced()
      reads this, world
    {
      Live() && world.s.host.value == host
    }

    /** Whatever stopped the work, the log is legal; after a failure that is not a storage error
        the record may be saved once more, and dropping the order is justified if the failure says so. */
    ghost predicate Rests(failure: Option<Failure>)
      reads this, world
    {
      && engine.world == world
      && world.Valid() && world.s.attempt.Some?
      && (failure.Some? ==>
            if failure.value.kind == State then !failure.value.terminal
            else Live() && failure.value.kind != Deferred && (failure.value.terminal ==> world.s.attempt.value.doomed))
    }

    /** Nothing has been answered, finalized or refreshed in this attempt yet. */
    ghost predicate Idle(a: Attempt) {
      !a.answered && !a.finalized && !a.published && a.refreshes == 0
    }

    /** The durable order is the one the snapshot speaks of, the snapshot has been accepted, and it is the latest. */
    ghost predicate Tracks(snapshot: Snapshot, replacement: Option<string>)
      reads this, world
    {
      && Synced() && world.s.attempt.value.restored
      && host.order.Some? && Acceptable(snapshot, host, replacement) && host.order.value.url == Some(snapshot.url)
      && (snapshot.expires.Some? ==> host.order.value.expires == snapshot.expires)
      && Heard(world.s.attempt.value, snapshot)
    }

    /** What one round of the polling loop leaves alone. */
    predicate Polled(a: Attempt, b: Attempt) {
      && b.finalized == a.finalized && b.refreshes == a.refreshes && b.slept >= a.slept
      && (a.doomed ==> b.doomed)
    }

    /** The loop's flags agree with what was sent, and its waits with the time slept. */
    ghost predicate Round(snapshot: Snapshot, replacement: Option<string>, acknowledged: bool, leased: bool,
                          finalized: bool, waits: nat)
      reads this, world
    {
      && Tracks(snapshot, replacement)
      && var a := world.s.attempt.value;
      && a.finalized == finalized
      && (a.answered ==> acknowledged) && (acknowledged ==> a.published)
      && (leased ==> a.published)
      && a.refreshes == waits
      && a.slept >= Waited(waits) * NANOS
    }

    /** The success commit and the activation are the last two events. */
    ghost predicate Installed(validity: CertificateValidity)
      reads this, world
    {
      && world.s.host == Some(host) && host.retry == Fresh && host.order.None?
      && host.certificate.Some? && host.certificate.value.Validity() == validity
      && setting.prepare(host.certificate.value.material) == Some(validity)
      && |world.log| >= 2
      && world.log[|world.log| - 2] == Saved(host, true)
      && world.log[|world.log| - 1] == Activated(host.certificate.value.material)
    }

    /** Raises the floor for the present moment and the CA's hint, and saves the record. */
    method PersistRetry() returns (r: Outcome<()>)
      requires Live()
      modifies `host, world`log, world`states, world`s, world`readings
      ensures Rests(r.Why()) && old(world.log) <= world.log
      ensures r.Failed? ==> r.failure == Fail(State)
      ensures old(world.readings) <= world.readings && |world.readings| == |old(world.readings)| + 1
      ensures r.Done? ==>
        && Synced() && world.log == old(world.log) + [Saved(host, true)]
        && Ok(host.retry) == RefreshRetry(old(host).retry, world.readings[|old(world.readings)|], delay, world.hint)
        && host == old(host).(retry := host.retry)
        && OnlySlept(old(world.s.attempt.value), world.s.attempt.value) && world.s.attempt.value.persisted
        && world.s.attempt.value.slept == old(world.s.attempt.value.slept)
    {
      var now := world.Now();
      var retry := RefreshRetry(host.retry, now, delay, world.hint);
      if retry.Err? {
        return Failed(Fail(State));
      }
      host := host.(retry := retry.value);
      r := world.SaveHost(host);
    }

    /** Persists the floor, then sleeps for the pause or until the CA's hint, if the budget allows it. */
    method Wait(pause: nat) returns (r: Outcome<bool>)
      requires Live()
      modifies `host, world`log, world`states, world`s, world`mono, world`readings
      ensures Rests(r.Why()) && old(world.log) <= world.log && world.mono >= old(world.mono)
      ensures old(world.readings) <= world.readings && |world.readings| > |old(world.readings)|
      ensures r.Failed? ==> r.failure == Fail(State) || r.failure == Failure(Timeout, false, world.hint)
      ensures r.Failed? && r.failure.kind == Timeout ==>
        && |world.readings| == |old(world.readings)| + 2
        && world.mono + Pause(pause, world.hint, world.readings[|old(world.readings)| + 1]) >= deadline
      ensures r.Done? ==>
        && |world.readings| == |old(world.readings)| + 2
        && Synced() && host == old(host).(retry := host.retry)
        && Ok(host.retry) == RefreshRetry(old(host).retry, world.readings[|old(world.readings)|], delay, world.hint)
        && OnlySlept(old(world.s.attempt.value), world.s.attempt.value) && world.s.attempt.value.persisted
        && var length := Pause(pause, world.hint, world.readings[|old(world.readings)| + 1]);
        && world.s.attempt.value.slept == old(world.s.attempt.value.slept) + length
        && r.value == (length > 0)
        && (length > 0 ==> world.s.attempt.value.slept < BUDGET)
        && world.mono >= old(world.mono) + length
        && old(world.mono) + length < deadline
    {
      var _ :- PersistRetry();
      var now := world.Now();
      var length := Pause(pause, world.hint, now);
      var instant := world.Monotonic();
      if instant + length >= deadline {
        return Failed(Failure(Timeout, false, world.hint));
      }
      if length != 0 {
        var _ :- world.Sleep(length);
      }
      return Done(length != 0);
    }

    /** Runs before every request: the hint is waited for, and the record, with a current floor, is durable. */
    method Before() returns (r: Outcome<()>)
      requires Live()
      modifies `host, world
      ensures Rests(r.Why()) && old(world.log) <= world.log && world.mono >= old(world.mono)
      ensures old(world.readings) < world.readings
      ensures r.Failed? ==> r.failure == Fail(State) || r.failure == Failure(Timeout, false, old(world.hint))
      ensures r.Done? ==>
        && Synced() && host == old(host).(retry := host.retry) && world.hint.None?
        && OnlySlept(old(world.s.attempt.value), world.s.attempt.value) && world.s.attempt.value.persisted
        && host.retry.notBefore >= world.readings[|old(world.readings)|] / NANOS + delay
        && (old(world.hint).Some? ==>
              && old(world.hint).value <= host.retry.notBefore * NANOS
              && |world.readings| >= |old(world.readings)| + 2
              && world.s.attempt.value.slept - old(world.s.attempt.value.slept)
                 >= old(world.hint).value - world.readings[|old(world.readings)| + 1])
    {
      ghost var retry, n := host.retry, |world.readings|;
      var slept :- Wait(0);
      FloorRises(retry, world.readings[n], delay, world.hint);
      if slept {
        retry := host.retry;
        var _ :- PersistRetry();
        FloorRises(retry, world.readings[n + 2], delay, world.hint);
      }
      world.hint := None;
      return Done(());
    }

    /** Stores what has become known of the order. */
    method Record(url: Url, expires: Option<nat>) returns (r: Outcome<()>)
      requires Synced() && host.order.Some?
      requires Some(url)
        == if host.order.value.url.None? then world.s.attempt.value.given else host.order.value.url
      modifies `host, world`log, world`states, world`s
      ensures Rests(r.Why()) && old(world.log) <= world.log
      ensures r.Failed? ==> r.failure == Fail(State)
      ensures r.Done? ==>
        && Synced() && OnlySlept(old(world.s.attempt.value), world.s.attempt.value)
        && world.s.attempt.value.slept == old(world.s.attempt.value.slept)
        && host == old(host).(order := Some(Learned(old(host).order.value, url, expires)))
    {
      LearnedKeeps(host, world.s.attempt.value, url, expires);
      host := host.(order := Some(Learned(host.order.value, url, expires)));
      r := world.SaveHost(host);
    }

    /** Records what the CA says about the order; a report that is not acceptable is a protocol failure and changes
        nothing. The URL never changes; the expiry is the reported one, or else the one that was known. */
    method Observe(snapshot: Snapshot, replacement: Option<string>) returns (r: Outcome<()>)
      requires Synced() && host.order.Some?
      requires host.order.value.url.None? ==> world.s.attempt.value.given == Some(snapshot.url)
      modifies `host, world`log, world`states, world`s
      ensures Rests(r.Why()) && old(world.log) <= world.log
      ensures !Acceptable(snapshot, old(host), replacement) ==>
        r == Failed(Fail(FailureKind.Protocol)) && world.log == old(world.log) && host == old(host)
      ensures r.Failed? && Acceptable(snapshot, old(host), replacement) ==> r.failure == Fail(State)
      ensures r.Done? ==>
        && Synced() && OnlySlept(old(world.s.attempt.value), world.s.attempt.value)
        && world.s.attempt.value.slept == old(world.s.attempt.value.slept)
        && Acceptable(snapshot, old(host), replacement)
        && host.order.Some? && host.order.value.url == Some(snapshot.url)
        && host.order.value.expires
           == (if snapshot.expires.Some? then snapshot.expires else old(host).order.value.expires)
        && SameOrder(old(host).order.value, host.order.value)
        && host == old(host).(order := host.order)
    {
      if !snapshot.wellFormed || snapshot.dns != host.dns || snapshot.replacing != replacement
         || ((snapshot.status.Pending? || snapshot.status.Valid?) && snapshot.expires.None?)
         || (snapshot.expires.Some? && snapshot.expires.value > I64_MAX) {
        return Failed(Fail(FailureKind.Protocol));
      }
      if host.order.value.url.Some? && host.order.value.url.value != snapshot.url {
        return Failed(Fail(FailureKind.Protocol));
      }
      r := Record(snapshot.url, snapshot.expires);
    }

    method ReplacementId(certificate: Option<StoredCertificate>, kind: FailureKind) returns (r: Outcome<Option<string>>)
      ensures r.Failed? ==>
        r.failure == Fail(kind) && certificate.Some? && setting.identifier(certificate.value.material).None?
      ensures r.Done? ==> r.value == if certificate.None? then None else setting.identifier(certificate.value.material)
      ensures r.Done? && certificate.Some? ==> r.value.Some?
      ensures !r.Cut?
    {
      if certificate.None? {
        return Done(None);
      }
      var id := setting.identifier(certificate.value.material);
      if id.None? {
        return Failed(Fail(kind));
      }
      return Done(id);
    }

    /** The account must be registered with this directory and owe no waiting. */
    method CheckAccount(account: Option<StoredAccount>) returns (r: Outcome<()>)
      requires Live()
      modifies world`readings
      ensures old(world.readings) <= world.readings
      ensures r.Done? ==>
        && Usable(account, setting.directory)
        && |world.readings| == |old(world.readings)| + 1
        && account.value.retry.notBefore * NANOS <= world.readings[|old(world.readings)|]
      ensures r.Failed? && r.failure != Fail(State) ==>
        || (r.failure == Fail(FailureKind.Account) && (account.None? || account.value.credentials.None?))
        || (&& Usable(account, setting.directory)
            && r.failure == Failure(FailureKind.Account, false, Some(account.value.retry.notBefore * NANOS))
            && |world.readings| == |old(world.readings)| + 1
            && account.value.retry.notBefore * NANOS > world.readings[|old(world.readings)|])
    {
      var _ :- world.Interrupted();
      if account.None? || account.value.credentials.None? {
        return Failed(Fail(FailureKind.Account));
      }
      var parsed: bool := *;
      var credentials := account.value.credentials.value;
      if !parsed || credentials.directory != Some(setting.directory) || credentials.key != account.value.key {
        return Failed(Fail(State));
      }
      var floor := account.value.retry.notBefore;
      if floor > I64_MAX {
        return Failed(Fail(State));
      }
      var now := world.Now();
      if floor * NANOS > now {
        return Failed(Failure(FailureKind.Account, false, Some(floor * NANOS)));
      }
      return Done(());
    }

    /** The certificate must be the one the caller wants replaced, if the caller names one. An order for another
        profile is dropped; one that replaces a certificate must replace the stored one. */
    method Intent(supplied: Option<string>) returns (r: Outcome<Option<string>>)
      requires Synced()
      modifies `host
      ensures Rests(r.Why()) && !r.Cut?
      ensures r.Done? ==>
        && Live()
        && (supplied.Some? ==> setting.Replaceable(host) == supplied)
        && host == old(host).(order :=
             if old(host).order.Some?
                 && old(host).order.value.profile == setting.profile then old(host).order else None)
        && r.value == (if host.order.Some? then host.order.value.replacing else None)
        && (r.value.Some? ==> setting.Replaceable(host) == r.value)
      ensures r.Failed? ==>
        || (r.failure == Fail(Material) && supplied.Some? && setting.Replaceable(host) != supplied)
        || (&& r.failure == Fail(State) && old(host).order.Some? && old(host).order.value.profile == setting.profile
            && old(host).order.value.replacing.Some?
            && setting.Replaceable(host) != old(host).order.value.replacing)
    {
      if supplied.Some? {
        var current :- ReplacementId(host.certificate, Material);
        if current != supplied {
          return Failed(Fail(Material));
        }
      }
      if host.order.Some? && host.order.value.profile != setting.profile {
        host := host.(order := None);
      }
      if host.order.None? || host.order.value.replacing.None? {
        return Done(None);
      }
      if host.certificate.None? {
        return Failed(Fail(State));
      }
      var id :- ReplacementId(host.certificate, State);
      if id != host.order.value.replacing {
        return Failed(Fail(State));
      }
      return Done(id);
    }

    /** Creates the key and CSR of a new order in memory. */
    method CreateOrder(replacement: Option<string>) returns (r: Outcome<()>)
      requires Synced() && host.order.None?
      modifies `host, world`log, world`states, world`s, world`readings
      ensures Rests(r.Why()) && old(world.log) <= world.log && old(world.readings) <= world.readings && !r.Cut?
      ensures r.Failed? ==> r.failure == Fail(Material) || r.failure == Fail(State)
      ensures r.Done? ==>
        && Live() && host.order.Some? && host == old(host).(order := host.order)
        && |world.readings| == |old(world.readings)| + 1 && world.readings[|old(world.readings)|] >= 0
        && host.order == Some(PendingOrder(None, replacement, host.order.value.key, host.order.value.csr,
                                           world.readings[|old(world.readings)|] / NANOS, None, setting.profile))
        && world.log == old(world.log) + [Generated(host.order.value.key, host.order.value.csr)]
        && world.s.attempt.value == old(world.s.attempt.value).(generated := world.s.attempt.value.generated)
    {
      var generated: bool := *;
      var key: Key, csr: Csr := *, *;
      if !generated {
        return Failed(Fail(Material));
      }
      var now := world.Now();
      var started := Unix(now);
      if started.Err? {
        return Failed(Fail(State));
      }
      world.Emit(Generated(key, csr));
      host := host.(order := Some(PendingOrder(None, replacement, key, csr, started.value, None, setting.profile)));
      return Done(());
    }

    /** Fails terminally exactly when the order's expiry has passed. */
    method CheckExpiry() returns (r: Outcome<()>)
      requires Live() && host.order.Some?
      requires host.order.value.expires.Some? ==> Synced()
      modifies world`log, world`states, world`s, world`readings
      ensures Rests(r.Why()) && old(world.log) <= world.log && !r.Cut?
      ensures old(world.readings) <= world.readings && |world.readings| == |old(world.readings)| + 1
      ensures r.Done? ==> world.log == old(world.log) && world.states == old(world.states) && world.s == old(world.s)
      ensures var now := world.readings[|old(world.readings)|];
        if now < 0 || now / NANOS > I64_MAX then r == Failed(Fail(State))
        else if host.order.value.expires.Some? && host.order.value.expires.value <= now / NANOS
        then r == Failed(Terminal(FailureKind.Protocol))
        else r.Done?
    {
      var now := world.Now();
      var seconds := Unix(now);
      if seconds.Err? {
        return Failed(Fail(State));
      }
      if host.order.value.expires.Some? && host.order.value.expires.value <= seconds.value {
        world.Emit(Lapsed(seconds.value));
        return Failed(Terminal(FailureKind.Protocol));
      }
      return Done(());
    }

    /** Restores the account, checks the profile of an order that has no URL yet, and creates the order if there is
        none: it replaces the stored certificate exactly if the CA supports that. */
    method Plan(original: Option<string>) returns (r: Outcome<Option<string>>)
      requires Synced() && Idle(world.s.attempt.value) && world.s.attempt.value.persisted
      requires host.order.Some? ==>
        host.order.value.replacing == original && host.order.value.profile == setting.profile
      modifies `host, world`log, world`states, world`s, world`readings, world`hint, engine
      ensures Rests(r.Why()) && old(world.log) <= world.log && old(world.readings) <= world.readings
      ensures r.Done? ==>
        && Live() && Idle(world.s.attempt.value)
        && (old(host).order.Some? ==> host == old(host) && r.value == original)
        && (old(host).order.None? ==>
              && host == old(host).(order := host.order)
              && r.value == (if engine.ari then setting.Replaceable(host) else None))
        && host.order.Some? && host.order.value.replacing == r.value && host.order.value.profile == setting.profile
        && world.s.attempt.value.restored
        && (host.order.value.url.None? && setting.profile.Some? ==> engine.offered)
        && (host.order.value.expires.Some? ==> Synced())
    {
      var _ :- engine.Connect();
      if (host.order.None? || host.order.value.url.None?) && setting.profile.Some? && !engine.offered {
        return Failed(Fail(ProfileNotOffered));
      }
      if host.order.Some? {
        return Done(original);
      }
      var replacement := None;
      if engine.ari {
        replacement :- ReplacementId(host.certificate, Material);
      }
      var _ :- CreateOrder(replacement);
      return Done(replacement);
    }

    /** Looks at the account and at the stored intent, and saves the record before the first request. */
    method Review(account: Option<StoredAccount>, supplied: Option<string>) returns (r: Outcome<Option<string>>)
      requires Synced() && Idle(world.s.attempt.value)
      modifies `host, world
      ensures Rests(r.Why()) && old(world.log) <= world.log && world.mono >= old(world.mono)
      ensures r.Done? ==>
        && Synced() && Idle(world.s.attempt.value) && world.s.attempt.value.persisted
        && old(world.readings) < world.readings
        && Usable(account, setting.directory)
        && account.value.retry.notBefore * NANOS <= world.readings[|old(world.readings)|]
        && host.certificate == old(host).certificate && (supplied.Some? ==> setting.Replaceable(host) == supplied)
        && (host.order.Some? ==> host.order.value.replacing == r.value && host.order.value.profile == setting.profile)
        && (r.value.Some? ==> setting.Replaceable(host) == r.value)
    {
      var _ :- CheckAccount(account);
      var original :- Intent(supplied);
      var _ :- Before();
      return Done(original);
    }

    /** Everything up to the first order request: account, intent, order, expiry. */
    method Prepare(account: Option<StoredAccount>, supplied: Option<string>) returns (r: Outcome<Option<string>>)
      requires Synced() && Idle(world.s.attempt.value)
      modifies `host, world, engine
      ensures Rests(r.Why()) && old(world.log) <= world.log && world.mono >= old(world.mono)
      ensures r.Done? ==>
        && Live() && Idle(world.s.attempt.value) && world.s.attempt.value.restored
        && old(world.readings) < world.readings
        && Usable(account, setting.directory)
        && account.value.retry.notBefore * NANOS <= world.readings[|old(world.readings)|]
        && host.certificate == old(host).certificate && (supplied.Some? ==> setting.Replaceable(host) == supplied)
        && host.order.Some? && host.order.value.replacing == r.value && host.order.value.profile == setting.profile
        && (r.value.Some? ==> setting.Replaceable(host) == r.value)
        && (host.order.value.url.None? ==> (setting.profile.Some? ==> engine.offered) && (r.value.Some? ==> engine.ari))
        && (host.order.value.expires.Some? ==>
              host.order.value.expires.value > world.readings[|world.readings| - 1] / NANOS)
    {
      var original :- Review(account, supplied);
      var replacement :- Plan(original);
      var _ :- CheckExpiry();
      if host.order.value.url.None? && replacement.Some? && !engine.ari {
        return Failed(Fail(FailureKind.Protocol));
      }
      return Done(replacement);
    }

    /** Asks for the status of the order at its stored URL and records it. */
    method Ask(call: Call, replacement: Option<string>) returns (r: Outcome<Snapshot>)
      requires Synced() && host.order.Some? && (call.Resume? || call.Refresh?)
      requires CallAllowed(host, world.s.attempt.value, call)
      modifies `host, world`log, world`states, world`s, world`hint, engine
      ensures Rests(r.Why()) && old(world.log) <= world.log
      ensures r.Done? ==>
        && Tracks(r.value, replacement)
        && var a, b := old(world.s.attempt.value), world.s.attempt.value;
        && Related(a, b) && b.refreshes == a.refreshes + (if call.Refresh? then 1 else 0)
    {
      var snapshot :- engine.OrderStatus(call);
      var _ :- Observe(snapshot, replacement);
      return Done(snapshot);
    }

    /** Resumes the stored URL if there is one and asks for a new order only if there is none. */
    method Open(replacement: Option<string>) returns (r: Outcome<Snapshot>)
      requires Live() && Idle(world.s.attempt.value) && world.s.attempt.value.restored
      requires host.order.Some? && host.order.value.replacing == replacement
        && host.order.value.profile == setting.profile
      modifies `host, world, engine
      ensures Rests(r.Why()) && old(world.log) <= world.log && world.mono >= old(world.mono)
      ensures r.Done? ==> Tracks(r.value, replacement) && Idle(world.s.attempt.value)
    {
      var _ :- Before();
      if host.order.value.url.Some? {
        r := Ask(Resume(host.order.value.url.value), replacement);
        return;
      }
      var snapshot :- engine.NewOrder(host.dns, replacement, setting.profile);
      var _ :- Observe(snapshot, replacement);
      return Done(snapshot);
    }

    method FetchAuthorization(snapshot: Snapshot, ghost replacement: Option<string>) returns (r: Outcome<Authorization>)
      requires Tracks(snapshot, replacement)
      modifies `host, world
      ensures Rests(r.Why()) && old(world.log) <= world.log && world.mono >= old(world.mono)
      ensures r.Failed? ==> !r.failure.terminal
      ensures r.Done? ==>
        && Tracks(snapshot, replacement) && host.dns == old(host).dns
        && Polled(old(world.s.attempt.value), world.s.attempt.value)
        && world.s.attempt.value.answered == old(world.s.attempt.value.answered)
        && world.s.attempt.value.published == old(world.s.attempt.value.published)
        && world.s.attempt.value.last == Some(Authorize(snapshot.url))
    {
      var _ :- Before();
      var _ :- engine.Request(Authorize(snapshot.url));
      var dns: string, wildcard: bool, status: AuthorizationStatus, challenge: Option<ChallengeStatus> := *, *, *, *;
      return Done(Issuance.Authorization.Authorization(dns, wildcard, status, challenge));
    }

    /** Gives up on an order whose authorization cannot succeed. */
    method Deny(snapshot: Snapshot, ghost replacement: Option<string>, authorization: Authorization)
      returns (failure: Failure)
      requires Tracks(snapshot, replacement) && world.s.attempt.value.last == Some(Authorize(snapshot.url))
      requires Hopeless(host.dns, authorization)
      modifies world`log, world`states, world`s
      ensures Live() && old(world.log) <= world.log
      ensures failure == Terminal(FailureKind.Authorization) && world.s.attempt.value.doomed
    {
      world.Emit(Denied(authorization));
      return Terminal(FailureKind.Authorization);
    }

    /** Publishes the challenge response unless it is being served already. */
    method Publish(snapshot: Snapshot, ghost replacement: Option<string>, leased: bool) returns (r: Outcome<()>)
      requires Tracks(snapshot, replacement) && (leased ==> world.s.attempt.value.published)
      modifies world`log, world`states, world`s
      ensures Rests(r.Why()) && old(world.log) <= world.log && !r.Cut?
      ensures r.Failed? ==> r.failure == Fail(FailureKind.Authorization) && !leased && world.log == old(world.log)
      ensures r.Done? ==>
        && Tracks(snapshot, replacement)
        && world.s.attempt.value == old(world.s.attempt.value).(published := true)
    {
      if !leased {
        var free: bool := *;
        if !free {
          return Failed(Fail(FailureKind.Authorization));
        }
        world.Emit(Published);
      }
      return Done(());
    }

    method Acknowledge(snapshot: Snapshot, ghost replacement: Option<string>) returns (r: Outcome<()>)
      requires Tracks(snapshot, replacement) && !world.s.attempt.value.answered && world.s.attempt.value.published
      modifies `host, world
      ensures Rests(r.Why()) && old(world.log) <= world.log && world.mono >= old(world.mono)
      ensures r.Failed? ==> !r.failure.terminal
      ensures r.Done? ==>
        && Tracks(snapshot, replacement) && world.s.attempt.value.published && world.s.attempt.value.answered
        && Polled(old(world.s.attempt.value), world.s.attempt.value)
    {
      var _ :- Before();
      var _ :- engine.Request(AnswerChallenge(snapshot.url));
      return Done(());
    }

    /** What the pending branch makes of the authorization: nothing more to do once it is valid; otherwise the
        response is being served, and a pending challenge has been answered unless it was before. */
    ghost predicate Challenged(authorization: Authorization, acknowledged: bool, leased: bool, flags: (bool, bool),
                               a: Attempt, b: Attempt) {
      if authorization.status.AuthValid? then
        flags == (acknowledged, leased) && b.published == a.published && b.answered == a.answered
      else
        && flags == (true, true) && b.published
        && b.answered == (a.answered || (!acknowledged && authorization.challenge == Some(ChallengePending)))
    }

    /** Serves the response to a challenge that may still succeed, and answers it if that is still to be done. */
    method Offer(snapshot: Snapshot, ghost replacement: Option<string>, got: Authorization, acknowledged: bool,
                 leased: bool, ghost finalized: bool, ghost waits: nat)
      returns (r: Outcome<(bool, bool)>)
      requires Round(snapshot, replacement, acknowledged, leased, finalized, waits)
      requires got.status.AuthPending? && got.challenge.Some?
      modifies `host, world
      ensures Rests(r.Why()) && old(world.log) <= world.log && world.mono >= old(world.mono)
      ensures r.Failed? ==> !r.failure.terminal
      ensures r.Done? ==>
        && Round(snapshot, replacement, r.value.0, r.value.1, finalized, waits)
        && Challenged(got, acknowledged, leased, r.value, old(world.s.attempt.value), world.s.attempt.value)
    {
      var _ :- Publish(snapshot, replacement, leased);
      if !acknowledged && got.challenge.value.ChallengePending? {
        var _ :- Acknowledge(snapshot, replacement);
      }
      return Done((true, true));
    }

    /** The pending branch: publishes the challenge response once and tells the CA about it at most once. Only a
        hopeless authorization ends the order. */
    method Challenge(snapshot: Snapshot, ghost replacement: Option<string>, acknowledged: bool, leased: bool,
                     ghost finalized: bool, ghost waits: nat)
      returns (r: Outcome<(bool, bool)>, ghost authorization: Option<Authorization>)
      requires Round(snapshot, replacement, acknowledged, leased, finalized, waits)
      modifies `host, world
      ensures Rests(r.Why()) && old(world.log) <= world.log && world.mono >= old(world.mono)
      ensures authorization.Some? && Hopeless(old(host).dns, authorization.value) ==>
        r == Failed(Terminal(FailureKind.Authorization))
      ensures r.Failed? && r.failure.terminal ==> authorization.Some? && Hopeless(old(host).dns, authorization.value)
      ensures r.Done? ==>
        && Round(snapshot, replacement, r.value.0, r.value.1, finalized, waits)
        && authorization.Some?
        && Challenged(authorization.value, acknowledged, leased, r.value,
                      old(world.s.attempt.value), world.s.attempt.value)
    {
      authorization := None;
      var got :- FetchAuthorization(snapshot, replacement);
      authorization := Some(got);
      if got.wildcard || got.dns != host.dns {
        var failure := Deny(snapshot, replacement, got);
        return Failed(failure), authorization;
      }
      if got.status.AuthValid? {
        return Done((acknowledged, leased)), authorization;
      }
      if got.status.AuthOther? || got.challenge.None? || got.challenge.value.ChallengeInvalid? {
        var failure := Deny(snapshot, replacement, got);
        return Failed(failure), authorization;
      }
      r := Offer(snapshot, replacement, got, acknowledged, leased, finalized, waits);
    }

    /** The ready branch: finalizes with the CSR of the durable order. */
    method Finalize(snapshot: Snapshot, replacement: Option<string>, ghost acknowledged: bool, ghost leased: bool,
                    ghost waits: nat)
      returns (r: Outcome<Snapshot>)
      requires Round(snapshot, replacement, acknowledged, leased, false, waits) && snapshot.status.Ready?
      modifies `host, world
      ensures Rests(r.Why()) && old(world.log) <= world.log && world.mono >= old(world.mono)
      ensures r.Failed? ==> !r.failure.terminal
      ensures r.Done? ==> Round(r.value, replacement, acknowledged, leased, true, waits)
    {
      var _ :- Before();
      var next :- engine.Finalize(snapshot.url, host.order.value.csr);
      var _ :- Observe(next, replacement);
      return Done(next);
    }

    method Recheck(snapshot: Snapshot, replacement: Option<string>) returns (r: Outcome<Snapshot>)
      requires Tracks(snapshot, replacement) && world.s.attempt.value.refreshes < MAX_REFRESHES
      modifies `host, world, engine
      ensures Rests(r.Why()) && old(world.log) <= world.log && world.mono >= old(world.mono)
      ensures r.Done? ==>
        && Tracks(r.value, replacement)
        && Polled(old(world.s.attempt.value).(refreshes := old(world.s.attempt.value).refreshes + 1),
                  world.s.attempt.value)
        && world.s.attempt.value.answered == old(world.s.attempt.value.answered)
        && world.s.attempt.value.published == old(world.s.attempt.value.published)
    {
      var _ :- Before();
      r := Ask(Refresh(snapshot.url), replacement);
    }

    /** Waits, then asks the CA for the order's status again. */
    method Poll(snapshot: Snapshot, replacement: Option<string>, interval: nat,
                ghost acknowledged: bool, ghost leased: bool, ghost finalized: bool, ghost waits: nat)
      returns (r: Outcome<Snapshot>)
      requires Round(snapshot, replacement, acknowledged, leased, finalized, waits) && interval == Interval(waits)
      modifies `host, world, engine
      ensures Rests(r.Why()) && old(world.log) <= world.log
      ensures r.Done? ==>
        && Round(r.value, replacement, acknowledged, leased, finalized, waits + 1)
        && world.mono > old(world.mono) && old(world.mono) < deadline
    {
      RefreshBudget(waits, world.s.attempt.value.slept);
      var _ :- Wait(interval * NANOS);
      r := Recheck(snapshot, replacement);
    }

    method Download(url: Url) returns (r: Outcome<Chain>)
      requires Synced() && world.s.attempt.value.restored && host.order.Some? && host.order.value.url == Some(url)
      requires world.s.attempt.value.seen == Some((url, Status.Valid))
      modifies `host, world
      ensures Rests(r.Why()) && old(world.log) <= world.log
      ensures r.Failed? ==> !r.failure.terminal
      ensures r.Done? ==>
        && Synced() && host.order.Some? && host.order.value.url == Some(url)
        && world.s.attempt.value.downloaded == Some((url, r.value))
    {
      var _ :- Before();
      r := engine.Certificate(url);
    }

    /** The record of a certificate that is valid now: the chain with the order's key, the order's intent, a first
        renewal check at once, and a renewal time at the fallback. */
    ghost predicate Recorded(c: StoredCertificate, pending: PendingOrder, chain: Chain, now: int) {
      var lifetime := c.notAfter - c.notBefore;
      && now >= 0
      && c == StoredCertificate(pending.replacing, CertificateMaterial(chain, pending.key), c.notBefore, c.notAfter,
                                c.renewAt, now / NANOS, c.renewAt, None, 0, pending.profile)
      && setting.prepare(c.material) == Some(c.Validity())
      && c.notBefore <= now / NANOS < c.notAfter
      && (var target := c.notBefore + if lifetime >= 864_000 then 2 * lifetime / 3 else lifetime / 2;
          target - lifetime / 20 <= c.renewAt <= target)
    }

    /** Prepares the installation and the record it will be stored under. */
    method Check(pending: PendingOrder, chain: Chain) returns (r: Outcome<StoredCertificate>)
      modifies world`readings, world`draws
      ensures old(world.readings) <= world.readings && !r.Cut?
      ensures r.Done? ==> world.draws == old(world.draws) + [(r.value.notAfter - r.value.notBefore) / 20]
      ensures r.Failed? ==> r.failure == Fail(Material) || r.failure == Fail(State)
      ensures r.Failed? && r.failure == Fail(Material) ==>
        var validity := setting.prepare(CertificateMaterial(chain, pending.key));
        || validity.None?
        || (&& |world.readings| == |old(world.readings)| + 1
            && var now := world.readings[|old(world.readings)|] / NANOS;
               now < validity.value.notBefore || validity.value.notAfter <= now)
      ensures r.Done? ==>
        && |world.readings| == |old(world.readings)| + 1
        && Recorded(r.value, pending, chain, world.readings[|old(world.readings)|])
        && r.value.notBefore <= r.value.renewAt < r.value.notAfter
        && ValidCertificate(r.value)
    {
      var material := CertificateMaterial(chain, pending.key);
      var validity := setting.prepare(material);
      if validity.None? {
        return Failed(Fail(Material));
      }
      var nanos := world.Now();
      var now := Unix(nanos);
      if now.Err? {
        return Failed(Fail(State));
      }
      var notBefore, notAfter := validity.value.notBefore, validity.value.notAfter;
      if notBefore > now.value || now.value >= notAfter {
        return Failed(Fail(Material));
      }
      var draw := world.Uniform((notAfter - notBefore) / 20);
      var renewAt := Schedule.Fallback(validity.value, draw);
      Schedule.FallbackInsidePeriod(validity.value, draw);
      if renewAt.Err? {
        return Failed(Fail(State));
      }
      return Done(StoredCertificate(pending.replacing, material, notBefore, notAfter,
                                    renewAt.value, now.value, renewAt.value, None, 0, pending.profile));
    }

    /** Saves the record of the certificate and only then activates it. */
    method Activate(ghost url: Url, certificate: StoredCertificate) returns (r: Outcome<CertificateValidity>)
      requires Synced() && host.order.Some? && host.order.value.url == Some(url)
      requires world.s.attempt.value.downloaded == Some((url, certificate.material.chain))
      requires Commits(host.order.value, certificate)
      modifies `host, world`log, world`states, world`s
      ensures Rests(r.Why()) && old(world.log) <= world.log
      ensures r.Failed? ==> r.failure == Fail(State)
      ensures r.Done? ==> Installed(r.value) && host == StoredHost(old(host).dns, Some(certificate), None, Fresh)
    {
      host := StoredHost(host.dns, Some(certificate), None, Fresh);
      var _ :- world.SaveHost(host);
      world.Emit(Activated(certificate.material));
      return Done(certificate.Validity());
    }

    /** The certificate may be stored for the order. */
    predicate Commits(o: PendingOrder, c: StoredCertificate) {
      && c.material.key == o.key && c.replacing == o.replacing && c.profile == o.profile
      && c.notBefore <= c.ariCheckAt < c.notAfter
      && c.notBefore <= c.renewAt < c.notAfter && c.fallbackAt == c.renewAt
      && c.ariWindow.None? && c.ariFailures == 0
      && setting.prepare(c.material) == Some(c.Validity())
    }

    method Commit(url: Url, chain: Chain) returns (r: Outcome<CertificateValidity>)
      requires Synced() && host.order.Some? && host.order.value.url == Some(url)
      requires world.s.attempt.value.downloaded == Some((url, chain))
      modifies `host, world`log, world`states, world`s, world`readings, world`draws
      ensures Rests(r.Why()) && old(world.log) <= world.log && old(world.readings) <= world.readings
      ensures r.Failed? ==> !r.failure.terminal
      ensures r.Done? ==>
        && Installed(r.value) && |world.readings| == |old(world.readings)| + 1
        && Recorded(host.certificate.value, old(host).order.value, chain, world.readings[|old(world.readings)|])
    {
      var certificate :- Check(host.order.value, chain);
      r := Activate(url, certificate);
    }

    /** The valid branch: downloads, checks, commits, and only then activates. */
    method Install(snapshot: Snapshot, ghost replacement: Option<string>) returns (r: Outcome<CertificateValidity>)
      requires Tracks(snapshot, replacement) && snapshot.status.Valid?
      modifies `host, world
      ensures Rests(r.Why()) && old(world.log) <= world.log
      ensures r.Failed? ==> !r.failure.terminal
      ensures r.Done? ==> Installed(r.value)
    {
      var chain :- Download(snapshot.url);
      r := Commit(snapshot.url, chain);
    }

    /** What each status asks for. */
    ghost predicate Answers(status: Status, acknowledged: bool, leased: bool, finalized: bool, verdict: Verdict) {
      match status
      case Pending => verdict.Waiting?
      case Ready => if finalized then verdict == Waiting(acknowledged, leased) else verdict.Finalized?
      case Processing => verdict == Waiting(acknowledged, leased)
      case Valid => verdict.Finished?
      case Invalid => false
    }

    /** Acts on the latest status: an order that is ready is finalized, once; one that is valid is installed; one
        that is invalid is given up; otherwise the loop waits. */
    method Respond(snapshot: Snapshot, replacement: Option<string>, acknowledged: bool, leased: bool, finalized: bool,
                   ghost waits: nat)
      returns (r: Outcome<Verdict>)
      requires Round(snapshot, replacement, acknowledged, leased, finalized, waits)
      modifies `host, world
      ensures Rests(r.Why()) && old(world.log) <= world.log
      ensures snapshot.status.Invalid? ==> r == Failed(Terminal(FailureKind.Protocol))
      ensures r.Done? ==> Answers(snapshot.status, acknowledged, leased, finalized, r.value)
      ensures r.Done? && r.value.Finished? ==> Installed(r.value.validity)
      ensures r.Done? && r.value.Finalized? ==>
        && Round(r.value.snapshot, replacement, acknowledged, leased, true, waits)
        && !finalized && world.mono >= old(world.mono)
      ensures r.Done? && r.value.Waiting? ==>
        && Round(snapshot, replacement, r.value.acknowledged, r.value.leased, finalized, waits)
        && world.mono >= old(world.mono)
    {
      match snapshot.status {
        case Invalid =>
          return Failed(Terminal(FailureKind.Protocol));
        case Pending =>
          var flags, _ := Challenge(snapshot, replacement, acknowledged, leased, finalized, waits);
          if !flags.Done? {
            return flags.PropagateFailure();
          }
          return Done(Waiting(flags.value.0, flags.value.1));
        case Ready =>
          if finalized {
            return Done(Waiting(acknowledged, leased));
          }
          var next :- Finalize(snapshot, replacement, acknowledged, leased, waits);
          return Done(Finalized(next));
        case Processing =>
          return Done(Waiting(acknowledged, leased));
        case Valid =>
          var validity :- Install(snapshot, replacement);
          return Done(Finished(validity));
      }
    }

    /** Acts on the latest status, unless the order has expired at `now`. */
    method Act(snapshot: Snapshot, replacement: Option<string>, acknowledged: bool, leased: bool, finalized: bool,
               ghost waits: nat)
      returns (r: Outcome<Verdict>, ghost now: int)
      requires Round(snapshot, replacement, acknowledged, leased, finalized, waits)
      modifies `host, world
      ensures Rests(r.Why()) && old(world.log) <= world.log
      ensures snapshot.status.Invalid? ==> !r.Done? && (r.Failed? ==> r.failure.terminal || r.failure == Fail(State))
      ensures r.Done? ==>
        && now >= 0
        && (old(host).order.value.expires.Some? ==> now / NANOS < old(host).order.value.expires.value)
        && Answers(snapshot.status, acknowledged, leased, finalized, r.value)
      ensures r.Done? && r.value.Finished? ==> Installed(r.value.validity)
      ensures r.Done? && r.value.Finalized? ==>
        && Round(r.value.snapshot, replacement, acknowledged, leased, true, waits)
        && !finalized && world.mono >= old(world.mono)
      ensures r.Done? && r.value.Waiting? ==>
        && Round(snapshot, replacement, r.value.acknowledged, r.value.leased, finalized, waits)
        && world.mono >= old(world.mono)
    {
      var unexpired := CheckExpiry();
      now := world.readings[|world.readings| - 1];
      if !unexpired.Done? {
        return unexpired.PropagateFailure(), now;
      }
      r := Respond(snapshot, replacement, acknowledged, leased, finalized, waits);
    }

    /** Polls until the order ends; it terminates because every wait uses up the budget. */
    method Loop(first: Snapshot, replacement: Option<string>) returns (r: Outcome<CertificateValidity>)
      requires Round(first, replacement, false, false, false, 0)
      modifies `host, world, engine
      ensures Rests(r.Why()) && old(world.log) <= world.log
      ensures r.Done? ==> Installed(r.value)
    {
      var snapshot := first;
      var leased, acknowledged, finalized := false, false, false;
      var interval := 2;
      ghost var waits := 0;
      while true
        invariant Round(snapshot, replacement, acknowledged, leased, finalized, waits)
        invariant old(world.log) <= world.log && interval == Interval(waits)
        decreases if world.mono < deadline then deadline - world.mono else 0, !finalized
      {
        var acted, _ := Act(snapshot, replacement, acknowledged, leased, finalized, waits);
        var verdict :- acted;
        match verdict {
          case Finished(validity) =>
            return Done(validity);
          case Finalized(next) =>
            snapshot, finalized := next, true;
          case Waiting(heard, held) =>
            acknowledged, leased := heard, held;
            snapshot :- Poll(snapshot, replacement, interval, acknowledged, leased, finalized, waits);
            interval := Min(2 * interval, 30);
            waits := waits + 1;
        }
      }
    }

    method Run(account: Option<StoredAccount>, supplied: Option<string>) returns (r: Outcome<CertificateValidity>)
      requires Synced() && Idle(world.s.attempt.value)
      modifies `host, world, engine
      ensures Rests(r.Why()) && old(world.log) <= world.log
      ensures r.Done? ==> Installed(r.value) && Usable(account, setting.directory)
      ensures r.Done? && supplied.Some? ==> setting.Replaceable(old(host)) == supplied
    {
      var replacement :- Prepare(account, supplied);
      var snapshot :- Open(replacement);
      r := Loop(snapshot, replacement);
    }
  }

  /** The retry state an admitted attempt must save, its delay, and the seconds read for the check and for the floor. */
  datatype Reserved = Reserved(retry: RetryState, delay: nat, now: nat, start: nat)

  /** A delay for this many failures: the base, and at most a tenth more. */
  predicate Delays(delay: nat, failures: nat, lifetime: Option<nat>) {
    var base := Schedule.RetryBase(failures, lifetime);
    60 <= base <= delay <= base + base / 10
  }

  /** Refuses to start before the floor; otherwise counts a failure in advance and raises the floor. */
  method Reserve(world: World, retry: RetryState, lifetime: Option<nat>) returns (r: Outcome<Reserved>)
    modifies world`readings, world`draws
    ensures old(world.readings) <= world.readings
    ensures r.Done? ==>
      world.draws == old(world.draws) + [Schedule.RetryBase(r.value.retry.failures, lifetime) / 10]
    ensures retry.notBefore <= I64_MAX ==> |world.readings| > |old(world.readings)|
    ensures !r.Cut? && (r.Failed? ==> !r.failure.terminal)
    ensures r.Failed? && r.failure.kind.Deferred? <==>
      && retry.notBefore <= I64_MAX
      && retry.notBefore * NANOS > world.readings[|old(world.readings)|]
    ensures r.Failed? && r.failure.kind.Deferred? ==> r.failure.notBefore == Some(retry.notBefore * NANOS)
    ensures r.Done? ==>
      && |world.readings| == |old(world.readings)| + 2
      && r.value.now == world.readings[|old(world.readings)|] / NANOS >= retry.notBefore
      && r.value.start == world.readings[|old(world.readings)| + 1] / NANOS
      && r.value.retry.failures == SaturatingSucc(retry.failures, U32_MAX)
      && Delays(r.value.delay, r.value.retry.failures, lifetime)
      && r.value.retry.notBefore == Max(retry.notBefore, r.value.start + r.value.delay)
  {
    if retry.notBefore > I64_MAX {
      return Failed(Fail(State));
    }
    var now := world.Now();
    if retry.notBefore * NANOS > now {
      return Failed(Failure(Deferred, false, Some(retry.notBefore * NANOS)));
    }
    var failures := SaturatingSucc(retry.failures, U32_MAX);
    var base := Schedule.RetryBase(failures, lifetime);
    var draw := world.Uniform(base / 10);
    if draw.Err? {
      return Failed(Fail(Material));
    }
    var delay := base + draw.value;
    var again := world.Now();
    var refreshed := RefreshRetry(RetryState(failures, retry.notBefore), again, delay, None);
    if refreshed.Err? {
      return Failed(Fail(State));
    }
    return Done(Reserved(refreshed.value, delay, now / NANOS, again / NANOS));
  }

  /** Saves the outcome of a failed run: the floor is refreshed for the CA's hint, or else for the failure's, and the
      order is dropped exactly if it is finished. */
  method Settle(driver: Driver, failure: Failure) returns (r: Outcome<CertificateValidity>)
    requires driver.Live() && failure.kind != State && failure.kind != Deferred
    requires failure.terminal ==> driver.world.s.attempt.value.doomed
    modifies driver, driver.world`log, driver.world`states, driver.world`s, driver.world`readings
    ensures driver.world.Valid() && driver.world.s.attempt.Some? && old(driver.world.log) <= driver.world.log
    ensures old(driver.world.readings) < driver.world.readings
    ensures !r.Done? && (r.Failed? && r.failure.kind == State ==> !r.failure.terminal)
    ensures r.Failed? && r.failure.kind != State ==>
      && driver.world.s.host.Some?
      && var saved := driver.world.s.host.value;
      && r.failure == failure.(notBefore := Some(saved.retry.notBefore * NANOS))
      && saved == old(driver.host).(retry := saved.retry,
                                    order := if failure.terminal then None else old(driver.host).order)
      && Ok(saved.retry) == RefreshRetry(old(driver.host).retry, driver.world.readings[|old(driver.world.readings)|],
           driver.delay, if driver.world.hint.Some? then driver.world.hint else failure.notBefore)
  {
    var now := driver.world.Now();
    var hint := if driver.world.hint.Some? then driver.world.hint else failure.notBefore;
    var retry := RefreshRetry(driver.host.retry, now, driver.delay, hint);
    if retry.Err? {
      return Failed(Fail(State));
    }
    driver.host := driver.host.(retry := retry.value);
    if failure.terminal {
      driver.host := driver.host.(order := None);
    }
    var _ :- driver.world.SaveHost(driver.host);
    return Failed(failure.(notBefore := Some(driver.host.retry.notBefore * NANOS)));
  }

  /** Reads the record, reserves the attempt durably, and only then creates the driver. */
  method Begin(world: World, engine: Engine, setting: Setting, dns: string) returns (r: Outcome<Driver>)
    requires engine.world == world && world.Valid() && world.s.attempt.None?
    modifies world
    ensures world.Valid() && old(world.log) <= world.log
    ensures r.Failed? ==> !r.failure.terminal
    ensures r.Failed? && r.failure.kind != State ==> world.log == old(world.log) && world.s == old(world.s)
    ensures world.s.attempt.Some? ==> world.log != old(world.log)
    ensures r.Failed? && r.failure.kind.Deferred? ==>
      r.failure.notBefore == Some((if world.s.host.Some? then world.s.host.value.retry.notBefore else 0) * NANOS)
    ensures r.Done? ==>
      && fresh(r.value) && r.value.world == world && r.value.engine == engine && r.value.setting == setting
      && r.value.Synced() && r.value.Idle(world.s.attempt.value)
      && var record := if old(world.s).host.Some? then old(world.s).host.value else StoredHost(dns, None, None, Fresh);
      && r.value.host == record.(retry := r.value.host.retry)
      && r.value.host.retry.failures == SaturatingSucc(record.retry.failures, U32_MAX)
      && Delays(r.value.delay, r.value.host.retry.failures,
                if record.certificate.Some? then Some(record.certificate.value.Lifetime()) else None)
      && old(world.mono) + BUDGET <= r.value.deadline <= world.mono + BUDGET
  {
    var start := world.Monotonic();
    var stored :- world.ReadHost();
    var record := if stored.Some? then stored.value else NewHost(dns);
    var valid: bool := *;
    if !valid {
      return Failed(Fail(State));
    }
    var lifetime := if record.certificate.Some? then Some(record.certificate.value.Lifetime()) else None;
    var reserved :- Reserve(world, record.retry, lifetime);
    world.Emit(Admitted(reserved.now, reserved.start, reserved.delay, setting.profile));
    record := record.(retry := reserved.retry);
    var _ :- world.SaveHost(record);
    var driver := new Driver(world, engine, setting, reserved.delay, start + BUDGET, record);
    return Done(driver);
  }

  /** What the caller may rely on: a success is durable and activated, a deferral did nothing at all, any other
      failure but a storage error reports the durable floor, and it is terminal only if the order is durably gone. */
  ghost predicate Concluded(before: seq<Event>, after: seq<Event>, host: Option<StoredHost>,
                            r: Outcome<CertificateValidity>) {
    && (r.Done? ==>
          && host.Some? && host.value.retry == Fresh && host.value.order.None?
          && host.value.certificate.Some? && host.value.certificate.value.Validity() == r.value
          && Activated(host.value.certificate.value.material) in after)
    && (r.Failed? && r.failure.kind.Deferred? ==>
          && after == before
          && r.failure.notBefore == Some((if host.Some? then host.value.retry.notBefore else 0) * NANOS))
    && (r.Failed? && r.failure.kind != State && after != before ==>
          host.Some? && r.failure.notBefore == Some(host.value.retry.notBefore * NANOS))
    && (r.Failed? && r.failure.terminal ==> host.Some? && host.value.order.None?)
  }

  method Attempt(world: World, setting: Setting, dns: string, account: Option<StoredAccount>, supplied: Option<string>)
    returns (r: Outcome<CertificateValidity>)
    requires world.Valid() && world.s.attempt.None?
    modifies world
    ensures world.Valid() && old(world.log) <= world.log
    ensures r.Failed? && r.failure.kind.Deferred? ==> world.s.attempt.None?
    ensures world.s.attempt.Some? ==> world.log != old(world.log)
    ensures Concluded(old(world.log), world.log, world.s.host, r)
  {
    var engine := new Engine(world);
    var driver :- Begin(world, engine, setting, dns);
    r := driver.Run(account, supplied);
    if r.Failed? && r.failure.kind != State {
      r := Settle(driver, r.failure);
    }
  }

  /** One attempt, however it ends. */
  method Issue(world: World, setting: Setting, dns: string, account: Option<StoredAccount>, supplied: Option<string>)
    returns (r: Outcome<CertificateValidity>)
    requires world.Valid() && world.s.attempt.None?
    modifies world
    ensures world.Valid() && world.s.attempt.None? && old(world.log) <= world.log
    ensures Concluded(old(world.log), world.log, world.s.host, r)
  {
    r := Attempt(world, setting, dns, account, supplied);
    if world.s.attempt.Some? {
      world.Emit(Ended);
    }
  }

  /** Any number of attempts and renewal updates, with restarts under another profile in between. */
  method History(settings: seq<Setting>, dns: string, rounds: nat) returns (world: World)
    requires settings != []
    ensures fresh(world) && world.Valid() && world.s.attempt.None?
  {
    world := new World();
    for i := 0 to rounds
      invariant fresh(world) && world.Valid() && world.s.attempt.None?
    {
      var k :| 0 <= k < |settings|;
      var account: Option<StoredAccount>, supplied: Option<string> := *, *;
      var record: StoredHost, reschedule: bool := *, *;
      if reschedule && Allowed(world.s, Rescheduled(record)) {
        world.Emit(Rescheduled(record));
      } else {
        var _ := Issue(world, settings[k], dns, account, supplied);
      }
    }
  }
}
