/** Account registration (`ensure_account` in `issuer/mod.rs`): the account key is durable before it is
    ever shown to the CA, and credentials are stored only with the key they belong to. */
module AccountSetup {
  import opened Types
  import opened Issuer
  import Attempts

  datatype Event =
    | Admitted(now: nat, start: nat, delay: nat)
    | Saved(account: StoredAccount, landed: bool)
    | Registered(key: Key)                       // a registration request is sent for this key
    | Ended
    | Rescheduled(retry: RetryState)             // the manager changes a registered account's back-off

  datatype Registration = Registration(start: nat, delay: nat, reserved: bool, sent: bool)

  /** What comes of a registration request: credentials, a failure with the CA's hint, or nothing. */
  datatype Reply = Accepted(credentials: Credentials) | Refused(kind: FailureKind, hint: Option<int>) | Lost

  datatype Progress = Progress(account: Option<StoredAccount>, attempt: Option<Registration>)

  const Start: Progress := Progress(None, None)

  function Apply(s: Progress, e: Event): Progress {
    match e
    case Admitted(_, start, delay) => s.(attempt := Some(Registration(start, delay, false, false)))
    case Saved(account, landed) =>
      if !landed then s
      else Progress(Some(account), if s.attempt.Some? then Some(s.attempt.value.(reserved := true)) else None)
    case Registered(_) => if s.attempt.Some? then s.(attempt := Some(s.attempt.value.(sent := true))) else s
    case Ended => s.(attempt := None)
    case Rescheduled(retry) => if s.account.Some? then s.(account := Some(s.account.value.(retry := retry))) else s
  }

  predicate Matches(account: StoredAccount, directory: string) {
    account.credentials.Some? ==> account.credentials.value == Credentials(Some(directory), account.key)
  }

  predicate SaveAllowed(s: Progress, account: StoredAccount, directory: string) {
    && s.attempt.Some?
    && Matches(account, directory)
    && (s.account.Some? ==> account.key == s.account.value.key && s.account.value.credentials.None?)
    && var a := s.attempt.value;
    if !a.reserved then
      && account.credentials.None?
      && account.retry.failures
         == SaturatingSucc(if s.account.Some? then s.account.value.retry.failures else 0, U32_MAX)
      && account.retry.notBefore >= a.start + a.delay
      && (s.account.Some? ==> account.retry.notBefore >= s.account.value.retry.notBefore)
    else
      && s.account.Some?
      && (account.credentials.None? ==>
            account.retry.failures == s.account.value.retry.failures
              && account.retry.notBefore >= s.account.value.retry.notBefore)
      && (account.credentials.Some? ==> a.sent && account.retry == Fresh)
  }

  predicate Allowed(s: Progress, e: Event, directory: string) {
    match e
    case Admitted(now, _, delay) =>
      s.attempt.None? && delay >= 60
        && (s.account.Some? ==> s.account.value.retry.notBefore <= now && s.account.value.credentials.None?)
    case Saved(account, _) => SaveAllowed(s, account, directory)
    case Registered(key) =>
      s.attempt.Some? && s.attempt.value.reserved && s.account.Some? && key == s.account.value.key
        && s.account.value.credentials.None?
    case Ended => s.attempt.Some?
    case Rescheduled(_) => s.attempt.None? && s.account.Some? && s.account.value.credentials.Some?
  }

  ghost predicate Behavior(states: seq<Progress>, log: seq<Event>, directory: string) {
    && |states| == |log| + 1
    && states[0] == Start
    && forall i {:trigger log[i]} :: 0 <= i < |log| ==>
         Allowed(states[i], log[i], directory) && states[i + 1] == Apply(states[i], log[i])
  }

  class Ledger {
    const directory: string
    ghost var log: seq<Event>
    ghost var states: seq<Progress>
    var s: Progress
    const clock: World

    ghost predicate Valid()
      reads this
    {
      Behavior(states, log, directory) && s == states[|log|]
    }

    constructor (directory: string, clock: World)
      ensures Valid() && s == Start && this.directory == directory && log == []
    {
      this.directory, this.clock, log, states, s := directory, clock, [], [Start], Start;
    }

    method Emit(e: Event)
      requires Valid() && Allowed(s, e, directory)
      modifies this
      ensures Valid() && s == Apply(old(s), e) && log == old(log) + [e]
    {
      log := log + [e];
      s := Apply(s, e);
      states := states + [s];
    }

    method Save(account: StoredAccount) returns (r: Outcome<()>)
      requires Valid() && SaveAllowed(s, account, directory)
      modifies this
      ensures Valid() && old(log) <= log
      ensures r.Failed? ==> r.failure == Fail(State)
      ensures r.Done? ==> s == Apply(old(s), Saved(account, true)) && log == old(log) + [Saved(account, true)]
      ensures !r.Done? ==> exists landed :: s == Apply(old(s), Saved(account, landed))
    {
      r := clock.Interrupted();
      var landed := *;
      landed := landed || r.Done?;
      Emit(Saved(account, landed));
    }

    /** Stores the credentials the CA returned, if they are for the stored key and this directory, or a floor that
        is refreshed for the CA's hint. */
    method Conclude(reserved: StoredAccount, delay: nat, reply: Reply) returns (r: Outcome<()>)
      requires Valid() && s.attempt.Some? && s.attempt.value.reserved && s.attempt.value.sent
      requires s.account == Some(reserved) && reserved.credentials.None?
      modifies this, clock`readings, clock`draws
      ensures Valid() && old(log) <= log && old(clock.readings) <= clock.readings
      ensures s.account.Some? && s.account.value.key == reserved.key
      ensures r.Done? ==>
        && reply == Accepted(Credentials(Some(directory), reserved.key))
        && s.account == Some(StoredAccount(reserved.key, Some(reply.credentials), Fresh))
      ensures r.Failed? && r.failure != Fail(State) ==>
        && reply.Refused? && |clock.readings| == |old(clock.readings)| + 1
        && s.account == Some(reserved.(retry := s.account.value.retry))
        && Ok(s.account.value.retry)
           == RefreshRetry(reserved.retry, clock.readings[|old(clock.readings)|], delay, reply.hint)
        && r.failure == Failure(reply.kind, false, Some(s.account.value.retry.notBefore * NANOS))
    {
      match reply {
        case Lost =>
          return Cut;
        case Accepted(credentials) =>
          if credentials.directory != Some(directory) || credentials.key != reserved.key {
            return Failed(Fail(State));
          }
          r := Save(reserved.(credentials := Some(credentials), retry := Fresh));
        case Refused(kind, hint) =>
          var now := clock.Now();
          var retry := RefreshRetry(reserved.retry, now, delay, hint);
          if retry.Err? {
            return Failed(Fail(State));
          }
          var _ :- Save(reserved.(retry := retry.value));
          return Failed(Failure(kind, false, Some(retry.value.notBefore * NANOS)));
      }
    }

    /** The stored key, or a new one; a stored account with credentials that do not belong to it is corrupt. */
    method Candidate() returns (r: Outcome<StoredAccount>)
      ensures r.Failed? ==> r.failure == Fail(Material) || r.failure == Fail(State)
      ensures r.Done? && s.account.Some? ==> r.value == s.account.value
      ensures r.Done? && s.account.None? ==> r.value == StoredAccount(r.value.key, None, Fresh)
      ensures r.Done? ==> Matches(r.value, directory)
    {
      var _ :- clock.Interrupted();
      if s.account.None? {
        var key: Key, generated: bool := *, *;
        if !generated {
          return Failed(Fail(Material));
        }
        return Done(StoredAccount(key, None, Fresh));
      }
      var account := s.account.value;
      if account.credentials.Some? && account.credentials.value != Credentials(Some(directory), account.key) {
        return Failed(Fail(State));
      }
      return Done(account);
    }

    /** The attempt admitted at `n` has a delay for the failures it counts, including itself. */
    ghost predicate Began(before: Option<StoredAccount>, n: nat)
      reads this
    {
      var failures := if before.Some? then before.value.retry.failures else 0;
      n < |log| && log[n].Admitted? && Attempts.Delays(log[n].delay, SaturatingSucc(failures, U32_MAX), None)
    }

    method Register() returns (r: Outcome<()>)
      requires Valid() && s.attempt.None?
      modifies this, clock`readings, clock`draws
      ensures Valid() && old(log) <= log
      ensures log != old(log) ==> Began(old(s).account, |old(log)|)
      ensures s.attempt.Some? ==> log != old(log)
      ensures r.Done? ==>
        s.account.Some? && s.account.value.credentials == Some(Credentials(Some(directory), s.account.value.key))
      ensures r.Done? && !(old(s).account.Some? && old(s).account.value.credentials.Some?) ==>
        && s.account.value.retry == Fresh
        && |log| > |old(log)| + 2 && log[|old(log)| + 2] == Registered(s.account.value.key)
      ensures r.Failed? && r.failure.kind.Deferred? && log == old(log) ==>
        r.failure.notBefore == Some((if old(s).account.Some? then old(s).account.value.retry.notBefore else 0) * NANOS)
      ensures old(s).account.Some? ==> s.account.Some? && s.account.value.key == old(s).account.value.key
      ensures old(s).account.Some? && old(s).account.value.credentials.Some? ==> s == old(s) && log == old(log)
    {
      var account :- Candidate();
      if account.credentials.Some? {
        return Done(());
      }
      var reserved :- Attempts.Reserve(clock, account.retry, None);
      Emit(Admitted(reserved.now, reserved.start, reserved.delay));
      account := account.(retry := reserved.retry);
      var _ :- Save(account);
      Emit(Registered(account.key));
      var reply: Reply := *;
      r := Conclude(account, reserved.delay, reply);
    }

    /** Generates a key only if none is stored, and registers only a key that is durable. */
    method EnsureAccount() returns (r: Outcome<()>)
      requires Valid() && s.attempt.None?
      modifies this, clock`readings, clock`draws
      ensures Valid() && s.attempt.None? && old(log) <= log
      ensures log != old(log) ==> Began(old(s).account, |old(log)|)
      ensures r.Done? ==>
        s.account.Some? && s.account.value.credentials == Some(Credentials(Some(directory), s.account.value.key))
      ensures r.Done? && !(old(s).account.Some? && old(s).account.value.credentials.Some?) ==>
        && s.account.value.retry == Fresh
        && |log| > |old(log)| + 2 && log[|old(log)| + 2] == Registered(s.account.value.key)
      ensures old(s).account.Some? ==> s.account.Some? && s.account.value.key == old(s).account.value.key
      ensures old(s).account.Some? && old(s).account.value.credentials.Some? ==> s == old(s) && log == old(log)
    {
      r := Register();
      if s.attempt.Some? {
        Emit(Ended);
      }
    }
  }

  lemma StepAt(states: seq<Progress>, log: seq<Event>, directory: string, i: nat)
    requires Behavior(states, log, directory) && i < |log|
    ensures Allowed(states[i], log[i], directory) && states[i + 1] == Apply(states[i], log[i])
  {}

  /** A stored account key is stored for good, and stored credentials belong to it. */
  lemma {:induction false} KeyIsForever(states: seq<Progress>, log: seq<Event>, directory: string, i: nat, j: nat)
    requires Behavior(states, log, directory) && i <= j <= |log| && states[i].account.Some?
    ensures states[j].account.Some? && states[j].account.value.key == states[i].account.value.key
    ensures states[i].account.value.credentials.Some? ==>
      states[j].account.value.credentials == states[i].account.value.credentials
    decreases j
  {
    if i < j {
      KeyIsForever(states, log, directory, i, j - 1);
      StepAt(states, log, directory, j - 1);
    }
  }

  lemma {:induction false} CredentialsMatchKey(states: seq<Progress>, log: seq<Event>, directory: string, n: nat)
    requires Behavior(states, log, directory) && n <= |log|
    ensures states[n].account.Some? ==> Matches(states[n].account.value, directory)
  {
    if n > 0 {
      StepAt(states, log, directory, n - 1);
      CredentialsMatchKey(states, log, directory, n - 1);
    }
  }

  /** Every registration ever sent uses one key, the stored one, and none is sent once credentials are stored. */
  lemma OneAccountKey(states: seq<Progress>, log: seq<Event>, directory: string, i: nat, n: nat)
    requires Behavior(states, log, directory) && i < |log| && n <= |log| && log[i].Registered?
    ensures i < n ==> states[n].account.Some? && states[n].account.value.key == log[i].key
    ensures n <= i && states[n].account.Some? ==>
      states[n].account.value.key == log[i].key && states[n].account.value.credentials.None?
    ensures n < |log| && log[n].Registered? ==> log[n].key == log[i].key
  {
    StepAt(states, log, directory, i);
    if i < n {
      KeyIsForever(states, log, directory, i, n);
    } else if states[n].account.Some? {
      KeyIsForever(states, log, directory, n, i);
    }
    if n < |log| {
      StepAt(states, log, directory, n);
    }
  }

  ghost predicate Requested(log: seq<Event>, n: nat, key: Key)
    requires n <= |log|
  {
    exists k :: 0 <= k < n && log[k] == Registered(key)
  }

  /** Credentials are stored only for a key that a registration was sent for. */
  lemma {:induction false} CredentialsWereRequested(states: seq<Progress>, log: seq<Event>, directory: string, n: nat)
    requires Behavior(states, log, directory) && n <= |log|
    ensures states[n].attempt.Some? && states[n].attempt.value.sent ==>
      states[n].account.Some? && Requested(log, n, states[n].account.value.key)
    ensures states[n].account.Some? && states[n].account.value.credentials.Some? ==>
      Requested(log, n, states[n].account.value.key)
  {
    if n > 0 {
      StepAt(states, log, directory, n - 1);
      CredentialsWereRequested(states, log, directory, n - 1);
      if log[n - 1].Registered? {
        assert Requested(log, n, log[n - 1].key);
      }
    }
  }

  /** A reserved attempt is covered by the durable floor until credentials are stored. */
  lemma {:induction false} AlwaysCovered(states: seq<Progress>, log: seq<Event>, directory: string, n: nat)
    requires Behavior(states, log, directory) && n <= |log|
    ensures states[n].attempt.Some? && states[n].attempt.value.reserved ==>
      && states[n].account.Some?
      && (states[n].account.value.credentials.None? ==>
            && states[n].account.value.retry.notBefore >= states[n].attempt.value.start + states[n].attempt.value.delay
            && states[n].account.value.retry.failures >= 1)
  {
    if n > 0 {
      StepAt(states, log, directory, n - 1);
      AlwaysCovered(states, log, directory, n - 1);
    }
  }

  /** The running attempt is the one that was admitted last. */
  lemma {:induction false} LastAdmitted(states: seq<Progress>, log: seq<Event>, directory: string, i: nat, k: nat)
    requires Behavior(states, log, directory) && i < k <= |log| && log[i].Admitted?
    requires forall m :: i < m < k ==> !log[m].Admitted?
    requires states[k].attempt.Some?
    ensures states[k].attempt.value.start == log[i].start && states[k].attempt.value.delay == log[i].delay
    decreases k
  {
    StepAt(states, log, directory, k - 1);
    if i < k - 1 {
      LastAdmitted(states, log, directory, i, k - 1);
    }
  }

  /** A registration is sent only by an admitted attempt, after its reservation: the durable record has the key
      that is sent, counts at least one failure, and its floor covers the attempt. */
  lemma RegistrationIsReserved(states: seq<Progress>, log: seq<Event>, directory: string, i: nat, k: nat)
    requires Behavior(states, log, directory) && i < k < |log|
    requires log[i].Admitted? && forall m :: i < m < k ==> !log[m].Admitted?
    requires log[k].Registered?
    ensures states[k].account.Some? && states[k].account.value.key == log[k].key
    ensures states[k].account.value.retry.notBefore >= log[i].start + log[i].delay
    ensures states[k].account.value.retry.failures >= 1
  {
    StepAt(states, log, directory, k);
    AlwaysCovered(states, log, directory, k);
    LastAdmitted(states, log, directory, i, k);
  }

  /** The floor of an account that is not registered yet never falls. */
  lemma {:induction false} FloorNeverFalls(states: seq<Progress>, log: seq<Event>, directory: string, i: nat, j: nat)
    requires Behavior(states, log, directory) && i <= j <= |log| && states[i].account.Some?
    requires states[j].account.Some? && states[j].account.value.credentials.None?
    ensures states[j].account.value.retry.notBefore >= states[i].account.value.retry.notBefore
    decreases j
  {
    if i < j {
      KeyIsForever(states, log, directory, i, j - 1);
      StepAt(states, log, directory, j - 1);
      FloorNeverFalls(states, log, directory, i, j - 1);
    }
  }

  /** A landed reservation. */
  predicate Reserves(s: Progress, e: Event) {
    e.Saved? && e.landed && s.attempt.Some? && !s.attempt.value.reserved
  }

  /** Once an attempt's reservation has landed, wherever the attempt is cut, no registration is attempted before its
      start plus its delay. */
  lemma RefusedUntilFloor(states: seq<Progress>, log: seq<Event>, directory: string, i: nat, k: nat, j: nat)
    requires Behavior(states, log, directory) && i < k < j < |log|
    requires log[i].Admitted? && forall m :: i < m < k ==> !log[m].Admitted?
    requires Reserves(states[k], log[k]) && log[j].Admitted?
    ensures log[j].now >= log[i].start + log[i].delay
  {
    StepAt(states, log, directory, k);
    AlwaysCovered(states, log, directory, k + 1);
    LastAdmitted(states, log, directory, i, k + 1);
    KeyIsForever(states, log, directory, k + 1, j);
    StepAt(states, log, directory, j);
    FloorNeverFalls(states, log, directory, k + 1, j);
  }
}
