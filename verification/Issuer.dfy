/** What the issuer works with (`issuer/mod.rs`): storage, CA, clock, random source and installer are an
    adversarial environment. Any awaited operation may be `Cut`, as when the attempt is dropped on
    its time budget or the process dies. Wall time may jump; monotonic time only grows. */
module Issuer {
  import opened Types
  import opened Issuance

  datatype Failure = Failure(kind: FailureKind, terminal: bool, notBefore: Option<int>)

  datatype Outcome<+T> = Done(value: T) | Failed(failure: Failure) | Cut {
    predicate IsFailure() { !Done? }

    function PropagateFailure<U>(): Outcome<U>
      requires !Done?
    {
      if Cut? then Cut else Failed(failure)
    }

    function Extract(): T
      requires Done?
    {
      value
    }

    function Why(): Option<Failure> {
      if Failed? then Some(failure) else None
    }
  }

  datatype Snapshot = Snapshot(
    status: Status,
    url: Url,
    wellFormed: bool,
    expires: Option<nat>,
    replacing: Option<string>,
    dns: string)

  function Fail(kind: FailureKind): Failure {
    Failure(kind, false, None)
  }

  function Terminal(kind: FailureKind): Failure {
    Failure(kind, true, None)
  }

  // ----- retry arithmetic -----

  /** Whole seconds of a moment in nanoseconds; moments before the epoch are refused. */
  function Unix(nanos: int): Result<nat> {
    if nanos < 0 || nanos / NANOS > I64_MAX then Err(InvalidData) else Ok(nanos / NANOS)
  }

  function CeilSeconds(nanos: nat): nat {
    nanos / NANOS + (if nanos % NANOS != 0 then 1 else 0)
  }

  function RefreshRetry(retry: RetryState, now: int, delay: nat, hint: Option<int>): Result<RetryState> {
    var seconds :- Unix(now);
    if seconds + delay > U64_MAX then Err(InvalidData) else
    var floor := Max(retry.notBefore, seconds + delay);
    if hint.Some? && (hint.value < 0 || CeilSeconds(hint.value) > U64_MAX) then Err(InvalidData) else
    var raised := if hint.Some? then Max(floor, CeilSeconds(hint.value)) else floor;
    if raised > I64_MAX then Err(InvalidData) else Ok(retry.(notBefore := raised))
  }

  /** Refreshing succeeds exactly if the clock and the hint are not before the epoch and the floor fits; then the
      floor is the least one that keeps the old floor, the delay and the server's hint. */
  lemma RefreshedFloor(retry: RetryState, now: int, delay: nat, hint: Option<int>)
    ensures var r := RefreshRetry(retry, now, delay, hint);
      && (r.Ok? <==>
            && now >= 0 && retry.notBefore <= I64_MAX && now / NANOS + delay <= I64_MAX
            && (hint.Some? ==> 0 <= hint.value <= I64_MAX * NANOS))
      && (r.Ok? ==>
            && r.value.failures == retry.failures
            && (forall floor: nat :: r.value.notBefore <= floor <==>
                  && retry.notBefore <= floor
                  && now / NANOS + delay <= floor
                  && (hint.Some? ==> hint.value <= floor * NANOS)))
  {
    if hint.Some? && hint.value >= 0 {
      forall floor: nat
        ensures hint.value <= floor * NANOS <==> CeilSeconds(hint.value) <= floor
      {
      }
      assert hint.value <= I64_MAX * NANOS <==> CeilSeconds(hint.value) <= I64_MAX;
    }
  }

  lemma FloorRises(retry: RetryState, now: int, delay: nat, hint: Option<int>)
    requires RefreshRetry(retry, now, delay, hint).Ok?
    ensures var floor := RefreshRetry(retry, now, delay, hint).value.notBefore;
      floor >= retry.notBefore && floor >= now / NANOS + delay && (hint.Some? ==> hint.value <= floor * NANOS)
  {
    RefreshedFloor(retry, now, delay, hint);
  }

  // ----- environment -----

  /** `hint` is the moment before which the CA wants no further request; `readings` are the wall times
      read and `draws` the ranges drawn from. */
  class World {
    ghost var log: seq<Event>
    ghost var states: seq<Progress>
    ghost var readings: seq<int>
    ghost var draws: seq<nat>
    var s: Progress
    var mono: nat
    var hint: Option<int>

    ghost predicate Valid()
      reads this
    {
      Behavior(states, log) && s == states[|log|]
    }

    constructor ()
      ensures Valid() && log == [] && s == Start
    {
      log, states, readings, draws, s, mono, hint := [], [Start], [], [], Start, 0, None;
    }

    method Emit(e: Event)
      requires Valid() && Allowed(s, e)
      modifies `log, `states, `s
      ensures Valid() && s == Apply(old(s), e) && log == old(log) + [e]
    {
      log := log + [e];
      s := Apply(s, e);
      states := states + [s];
    }

    method Now() returns (nanos: int)
      modifies `readings
      ensures readings == old(readings) + [nanos]
    {
      nanos := *;
      readings := readings + [nanos];
    }

    method Monotonic() returns (instant: nat)
      modifies `mono
      ensures instant == mono >= old(mono)
    {
      var passed: nat :| 0 <= passed;
      mono := mono + passed;
      instant := mono;
    }

    method Sleep(nanos: nat) returns (r: Outcome<()>)
      requires Valid() && s.attempt.Some? && s.host.Some?
      requires s.attempt.value.slept + nanos < BUDGET
      modifies `log, `states, `s, `mono
      ensures Valid() && s == Apply(old(s), Slept(nanos)) && log == old(log) + [Slept(nanos)]
      ensures !r.Failed? && (r.Done? ==> mono >= old(mono) + nanos) && mono >= old(mono)
    {
      Emit(Slept(nanos));
      var passed: nat :| 0 <= passed;
      var dropped := *;
      if dropped {
        mono := mono + passed;
        return Cut;
      }
      mono := mono + nanos + passed;
      return Done(());
    }

    method Interrupted() returns (r: Outcome<()>)
      ensures r.Failed? ==> r.failure == Fail(State)
    {
      var choice: int := *;
      r := if choice == 0 then Cut else if choice == 1 then Failed(Fail(State)) else Done(());
    }

    method ReadHost() returns (r: Outcome<Option<StoredHost>>)
      ensures r.Failed? ==> r.failure == Fail(State)
      ensures r.Done? ==> r.value == s.host
    {
      var _ :- Interrupted();
      return Done(s.host);
    }

    /** Success means the record is durable; otherwise it may be or not. */
    method SaveHost(record: StoredHost) returns (r: Outcome<()>)
      requires Valid() && SaveAllowed(s, record)
      modifies `log, `states, `s
      ensures Valid()
      ensures r.Failed? ==> r.failure == Fail(State)
      ensures r.Done? ==> s == Apply(old(s), Saved(record, true)) && log == old(log) + [Saved(record, true)]
      ensures !r.Done? ==>
        exists landed :: s == Apply(old(s), Saved(record, landed)) && log == old(log) + [Saved(record, landed)]
    {
      r := Interrupted();
      var landed := *;
      landed := landed || r.Done?;
      Emit(Saved(record, landed));
    }

    /** A draw from `0..=maximum`, or a failure of the random source. */
    method Uniform(maximum: nat) returns (r: Result<nat>)
      modifies `draws
      ensures draws == old(draws) + [maximum]
      ensures r.Ok? ==> r.value <= maximum
    {
      draws := draws + [maximum];
      var value: nat :| 0 <= value;
      r := if value <= maximum then Ok(value) else Err(Other);
    }
  }

  /** The CA's replies never stand for storage errors or for a refusal to start. */
  predicate CaFailure(failure: Failure) {
    failure.kind != State && failure.kind != Deferred
  }

  /** What talking to the CA leaves alone in the attempt's bookkeeping. */
  predicate Related(a: Attempt, b: Attempt) {
    && b == a.(last := b.last, given := b.given, seen := b.seen, doomed := b.doomed, refreshes := b.refreshes,
               persisted := b.persisted)
    && (a.doomed ==> b.doomed)
  }

  /** The snapshot is the attempt's latest report. */
  predicate Heard(a: Attempt, snapshot: Snapshot) {
    && a.seen == Some((snapshot.url, snapshot.status))
    && (snapshot.status.Invalid? ==> a.doomed)
  }

  /** One attempt's connection to the CA: the order it works on and what the directory offers. */
  class Engine {
    const world: World
    var order: Option<Url>
    var ari: bool
    var offered: bool                              // the directory offers the configured profile

    constructor (world: World)
      ensures this.world == world && order.None? && !ari
    {
      this.world, order, ari, offered := world, None, false, false;
    }

    /** Sends a request. The reply may be lost and the CA may have acted all the same. */
    method Request(call: Call) returns (r: Outcome<()>)
      requires world.Valid() && world.s.attempt.Some? && world.s.host.Some?
      requires CallAllowed(world.s.host.value, world.s.attempt.value, call)
      modifies world`log, world`states, world`s, world`hint
      ensures world.Valid() && old(world.log) <= world.log
      ensures r.Failed? ==> CaFailure(r.failure) && !r.failure.terminal
      ensures world.s == Apply(old(world.s), Sent(call, true))
    {
      var acted := *;
      world.Emit(Sent(call, acted));
      world.hint := *;
      var choice: int := *;
      var kind: FailureKind := *;
      if choice == 0 || kind.State? || kind.Deferred? {
        return Cut;
      } else if choice == 1 {
        return Failed(Fail(kind));
      }
      return Done(());
    }

    method Connect() returns (r: Outcome<()>)
      requires world.Valid() && world.s.attempt.Some? && world.s.host.Some?
      requires CallAllowed(world.s.host.value, world.s.attempt.value, Restore)
      modifies this, world`log, world`states, world`s, world`hint
      ensures world.Valid() && order == old(order) && old(world.log) <= world.log
      ensures r.Failed? ==> CaFailure(r.failure) && !r.failure.terminal
      ensures world.s == Apply(old(world.s), Sent(Restore, true))
    {
      r := Request(Restore);
      ari, offered := *, *;
    }

    /** The status the CA reports for `url`, with whatever metadata it sends along. */
    method Report(url: Url) returns (snapshot: Snapshot)
      requires world.Valid() && world.s.attempt.Some? && world.s.host.Some?
      requires forall status :: EventAllowed(world.s.host.value, world.s.attempt.value, Reported(url, status))
      modifies world`log, world`states, world`s, world`hint
      ensures world.Valid() && old(world.log) <= world.log && snapshot.url == url
      ensures world.s.host == old(world.s.host) && world.s.attempt.Some? && Heard(world.s.attempt.value, snapshot)
      ensures var a := world.s.attempt.value; a == old(world.s.attempt.value).(seen := a.seen, doomed := a.doomed)
      ensures old(world.s.attempt.value.doomed) ==> world.s.attempt.value.doomed
    {
      snapshot := *;
      snapshot := snapshot.(url := url);
      world.Emit(Reported(url, snapshot.status));
    }

    /** The CA no longer knows the order. */
    method Lose(call: Call)
      requires world.Valid() && world.s.attempt.Some? && world.s.host.Some?
      requires (call.Resume? || call.Refresh?) && world.s.attempt.value.last == Some(call)
      modifies world`log, world`states, world`s
      ensures world.Valid() && old(world.log) <= world.log
      ensures world.s == old(world.s).(attempt := Some(old(world.s.attempt.value).(doomed := true)))
    {
      world.Emit(Refused(call.url));
    }

    /** A request for the order resource itself may also learn that the order is gone. */
    method OrderRequest(call: Call) returns (r: Outcome<()>)
      requires world.Valid() && world.s.attempt.Some? && world.s.host.Some?
      requires call.Resume? || call.Refresh?
      requires CallAllowed(world.s.host.value, world.s.attempt.value, call)
      modifies world`log, world`states, world`s, world`hint
      ensures world.Valid() && old(world.log) <= world.log
      ensures world.s.host == old(world.s.host) && world.s.attempt.Some?
      ensures var a := world.s.attempt.value;
        a == Note(old(world.s.attempt.value), Sent(call, true)).(doomed := a.doomed)
      ensures r.Done? ==> world.s == Apply(old(world.s), Sent(call, true))
      ensures old(world.s.attempt.value.doomed) ==> world.s.attempt.value.doomed
      ensures r.Failed? ==> CaFailure(r.failure) && (r.failure.terminal ==> world.s.attempt.value.doomed)
    {
      r := Request(call);
      var gone := *;
      if r.Failed? && gone {
        Lose(call);
        r := Failed(r.failure.(terminal := true));
      }
    }

    /** Asks for a new order; the CA may open one even if the reply is lost. */
    method AskForOrder(call: Call) returns (r: Outcome<Url>)
      requires call.NewOrder?
      requires world.Valid() && world.s.attempt.Some? && world.s.host.Some?
      requires CallAllowed(world.s.host.value, world.s.attempt.value, call)
      modifies world`log, world`states, world`s, world`hint
      ensures world.Valid() && old(world.log) <= world.log
      ensures r.Failed? ==> CaFailure(r.failure) && !r.failure.terminal
      ensures world.s.host == old(world.s.host) && world.s.attempt.Some?
      ensures var a := world.s.attempt.value;
        && a == old(world.s.attempt.value).(last := a.last, given := a.given, persisted := a.persisted)
        && (r.Done? ==> a.given == Some(r.value))
    {
      var sent := Request(call);
      var created := *;
      if !created && !sent.Done? {
        return sent.PropagateFailure();
      }
      var url: Url := *;
      world.Emit(Opened(url));
      if !sent.Done? {
        return sent.PropagateFailure();
      }
      return Done(url);
    }

    method NewOrder(dns: string, replacing: Option<string>, profile: Option<string>) returns (r: Outcome<Snapshot>)
      requires world.Valid() && world.s.attempt.Some? && world.s.host.Some?
      requires CallAllowed(world.s.host.value, world.s.attempt.value, Call.NewOrder(dns, replacing, profile))
      modifies this, world`log, world`states, world`s, world`hint
      ensures world.Valid() && old(world.log) <= world.log
      ensures r.Failed? ==> CaFailure(r.failure) && !r.failure.terminal
      ensures world.s.host == old(world.s.host) && world.s.attempt.Some?
      ensures Related(old(world.s.attempt.value), world.s.attempt.value)
      ensures world.s.attempt.value.refreshes == old(world.s.attempt.value.refreshes)
      ensures r.Done? ==>
        && order == Some(r.value.url) && world.s.attempt.value.given == Some(r.value.url)
        && Heard(world.s.attempt.value, r.value)
    {
      var url :- AskForOrder(Call.NewOrder(dns, replacing, profile));
      order := Some(url);
      var snapshot := Report(url);
      return Done(snapshot);
    }

    method OrderStatus(call: Call) returns (r: Outcome<Snapshot>)
      requires world.Valid() && world.s.attempt.Some? && world.s.host.Some?
      requires call.Resume? || call.Refresh?
      requires CallAllowed(world.s.host.value, world.s.attempt.value, call)
      modifies this, world`log, world`states, world`s, world`hint
      ensures world.Valid() && old(world.log) <= world.log
      ensures world.s.host == old(world.s.host) && world.s.attempt.Some?
      ensures Related(old(world.s.attempt.value), world.s.attempt.value)
      ensures world.s.attempt.value.refreshes == old(world.s.attempt.value.refreshes) + (if call.Refresh? then 1 else 0)
      ensures r.Failed? ==> CaFailure(r.failure) && (r.failure.terminal ==> world.s.attempt.value.doomed)
      ensures r.Done? ==>
        r.value.url == call.url && order == Some(call.url) && Heard(world.s.attempt.value, r.value)
    {
      var _ :- OrderRequest(call);
      order := Some(call.url);
      var snapshot := Report(call.url);
      return Done(snapshot);
    }

    method Finalize(url: Url, csr: Csr) returns (r: Outcome<Snapshot>)
      requires world.Valid() && world.s.attempt.Some? && world.s.host.Some?
      requires CallAllowed(world.s.host.value, world.s.attempt.value, Call.Finalize(url, csr))
      modifies world`log, world`states, world`s, world`hint
      ensures world.Valid() && old(world.log) <= world.log
      ensures r.Failed? ==> CaFailure(r.failure) && !r.failure.terminal
      ensures world.s.host == old(world.s.host) && world.s.attempt.Some?
      ensures Related(old(world.s.attempt.value).(finalized := true), world.s.attempt.value)
      ensures world.s.attempt.value.refreshes == old(world.s.attempt.value.refreshes)
      ensures r.Done? ==> r.value.url == url && Heard(world.s.attempt.value, r.value)
    {
      var _ :- Request(Call.Finalize(url, csr));
      var snapshot := Report(url);
      return Done(snapshot);
    }

    method Certificate(url: Url) returns (r: Outcome<Chain>)
      requires world.Valid() && world.s.attempt.Some? && world.s.host.Some?
      requires CallAllowed(world.s.host.value, world.s.attempt.value, Download(url))
      modifies world`log, world`states, world`s, world`hint
      ensures world.Valid() && old(world.log) <= world.log
      ensures r.Failed? ==> CaFailure(r.failure) && !r.failure.terminal
      ensures world.s.host == old(world.s.host) && world.s.attempt.Some?
      ensures var a := world.s.attempt.value;
        a == old(world.s.attempt.value).(last := Some(Download(url)), downloaded := a.downloaded, persisted := false)
      ensures r.Done? ==> world.s.attempt.value.downloaded == Some((url, r.value))
    {
      var _ :- Request(Download(url));
      var parsed: bool := *;
      if !parsed {
        return Failed(Fail(Material));
      }
      var chain: Chain := *;
      world.Emit(Downloaded(url, chain));
      return Done(chain);
    }
  }
}
