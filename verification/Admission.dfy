/** Admission, draining and the uncertainty latch (`store/mod.rs`, `transport/mod.rs`).
    Each lock-held section and each waker call is one step, and steps interleave freely. */
module Admission {
  import opened Types

  /** The store runs one operation at a time and admits any number; the transport runs and admits two. */
  datatype Config = Config(limit: Option<nat>, workers: nat)

  const STORE: Config := Config(None, 1)
  const TRANSPORT: Config := Config(Some(2), 2)

  // ----- the locked record -----

  datatype Gate = Gate(accepting: bool, uncertain: bool, active: nat, waiters: set<nat>)

  const Open: Gate := Gate(true, false, 0, {})

  datatype Admitted = Accepted | Refused(error: StateError)

  function Verdict(c: Config, g: Gate, mutation: bool): Admitted {
    if !g.accepting then Refused(Closed)
    else if mutation && g.uncertain then Refused(StateUncertain)
    else if c.limit.Some? && g.active >= c.limit.value then Refused(Unavailable)
    else Accepted
  }

  function Admit(c: Config, g: Gate, mutation: bool): Gate {
    if Verdict(c, g, mutation).Accepted? then g.(active := g.active + 1) else g
  }

  /** The last operation to leave takes the waiters with it. `LeavingNeverUnderflows` rules out zero. */
  function Release(g: Gate): Gate {
    if g.active == 0 then g else
    g.(active := g.active - 1, waiters := if g.active == 1 then {} else g.waiters)
  }

  /** Closes for good; a drain that finds nothing active does not wait. */
  function Close(g: Gate, drain: nat, alive: set<nat>): Gate {
    g.(accepting := false, waiters := if g.active == 0 then g.waiters else g.waiters * alive + {drain})
  }

  /** The record behind the lock, changed in place. */
  class Lock {
    const config: Config
    var accepting: bool
    var uncertain: bool
    var active: nat
    var waiters: set<nat>

    ghost function View(): Gate
      reads this
    {
      Gate(accepting, uncertain, active, waiters)
    }

    constructor (config: Config)
      ensures this.config == config && View() == Open
    {
      this.config, accepting, uncertain, active, waiters := config, true, false, 0, {};
    }

    method Enter(mutation: bool) returns (r: Admitted)
      modifies this
      ensures r == Verdict(config, old(View()), mutation) && View() == Admit(config, old(View()), mutation)
    {
      if !accepting {
        return Refused(Closed);
      }
      if mutation && uncertain {
        return Refused(StateUncertain);
      }
      if config.limit.Some? && active >= config.limit.value {
        return Refused(Unavailable);
      }
      active := active + 1;
      return Accepted;
    }

    /** The waiters to wake once the lock is released. */
    method Leave() returns (woken: set<nat>)
      requires active > 0
      modifies this
      ensures View() == Release(old(View()))
      ensures woken == if old(active) == 1 then old(waiters) else {}
    {
      active := active - 1;
      if active != 0 {
        return {};
      }
      woken := waiters;
      waiters := {};
    }

    method Drain(id: nat, alive: set<nat>) returns (done: bool)
      modifies this
      ensures View() == Close(old(View()), id, alive) && done == (old(active) == 0)
    {
      accepting := false;
      if active == 0 {
        return true;
      }
      waiters := waiters * alive;
      waiters := waiters + {id};
      return false;
    }

    method MarkUncertain()
      modifies this
      ensures View() == old(View()).(uncertain := true)
    {
      uncertain := true;
    }
  }

  // ----- the whole system -----

  datatype Operation = Operation(mutation: bool, running: bool)

  /** `Asleep` waits for its waker; `Armed` has registered it but not yet looked at the counter. */
  datatype Drain = Waiting | Armed(notified: bool) | Asleep | Woken | Completed | Expired {
    predicate Unfinished() {
      !Completed? && !Expired?
    }
  }

  /** `wakes` are the waiters taken off the record whose wakers have not been called yet. */
  datatype System = System(gate: Gate, ops: map<nat, Operation>, drains: map<nat, Drain>, wakes: set<nat>)

  const Initial: System := System(Open, map[], map[], {})

  datatype Event =
    | Entered(op: nat, mutation: bool, verdict: Admitted)
    | Started(op: nat, proceeds: bool)     // a worker takes the operation and re-checks the latch
    | Committed(op: nat, certain: bool)
    | Left(op: nat)                        // the operation object is dropped: finished, refused or cancelled
    | Closing(drain: nat)
    | Registered(drain: nat)               // first half of a poll
    | Checked(drain: nat)                  // second half of a poll
    | Delivered(drain: nat)                // a waker is called
    | TimedOut(drain: nat)

  ghost function Unfinished(s: System): set<nat> {
    set d | d in s.drains && s.drains[d].Unfinished()
  }

  ghost function Running(ops: map<nat, Operation>): set<nat> {
    set o | o in ops && ops[o].running
  }

  ghost predicate Enabled(c: Config, s: System, e: Event) {
    match e
    case Entered(op, mutation, verdict) => op !in s.ops && verdict == Verdict(c, s.gate, mutation)
    case Started(op, proceeds) =>
      && op in s.ops && !s.ops[op].running && |Running(s.ops)| < c.workers
      && proceeds == !(s.ops[op].mutation && s.gate.uncertain)
    case Committed(op, _) => op in s.ops && s.ops[op].running && s.ops[op].mutation
    case Left(op) => op in s.ops
    case Closing(drain) => drain !in s.drains
    case Registered(drain) => drain in s.drains
      && (s.drains[drain].Waiting? || s.drains[drain].Asleep? || s.drains[drain].Woken?)
    case Checked(drain) => drain in s.drains && s.drains[drain].Armed?
    case Delivered(drain) => drain in s.wakes
    case TimedOut(drain) => drain in s.drains && s.drains[drain].Unfinished()
  }

  ghost function Next(c: Config, s: System, e: Event): System
    requires Enabled(c, s, e)
  {
    match e
    case Entered(op, mutation, verdict) =>
      s.(gate := Admit(c, s.gate, mutation),
         ops := if verdict.Accepted? then s.ops[op := Operation(mutation, false)] else s.ops)
    case Started(op, proceeds) => if proceeds then s.(ops := s.ops[op := s.ops[op].(running := true)]) else s
    case Committed(_, certain) => if certain then s else s.(gate := s.gate.(uncertain := true))
    case Left(op) =>
      s.(gate := Release(s.gate), ops := s.ops - {op},
         wakes := if s.gate.active == 1 then s.wakes + s.gate.waiters else s.wakes)
    case Closing(drain) =>
      s.(gate := Close(s.gate, drain, Unfinished(s)),
         drains := s.drains[drain := if s.gate.active == 0 then Completed else Waiting])
    case Registered(drain) => s.(drains := s.drains[drain := Armed(false)])
    case Checked(drain) =>
      var next := if s.gate.active == 0 then Completed else if s.drains[drain].notified then Woken else Asleep;
      s.(drains := s.drains[drain := next])
    case Delivered(drain) => s.(wakes := s.wakes - {drain}, drains := Notify(s.drains, drain))
    case TimedOut(drain) => s.(drains := s.drains[drain := Expired])
  }

  /** Calling a waker reaches only a drain that has registered one. */
  ghost function Notify(drains: map<nat, Drain>, drain: nat): map<nat, Drain> {
    if drain !in drains then drains else
    match drains[drain]
    case Asleep => drains[drain := Woken]
    case Armed(_) => drains[drain := Armed(true)]
    case _ => drains
  }

  ghost predicate CountersSound(c: Config, s: System) {
    && s.gate.active == |s.ops|
    && (c.limit.Some? ==> s.gate.active <= c.limit.value)
    && |Running(s.ops)| <= c.workers
  }

  /** While anything is active every unfinished drain is on the list; afterwards a sleeping one has a wake coming. */
  ghost predicate DrainsSound(s: System) {
    && (s.drains != map[] ==> !s.gate.accepting)
    && (forall d :: d in s.drains && s.drains[d].Unfinished() && s.gate.active > 0 ==> d in s.gate.waiters)
    && (forall d :: d in s.drains && s.drains[d].Asleep? && s.gate.active == 0 ==> d in s.wakes)
    && (forall d :: d in s.drains && s.drains[d].Completed? ==> s.gate.active == 0)
  }

  ghost predicate Sound(c: Config, s: System) {
    CountersSound(c, s) && DrainsSound(s)
  }

  lemma AddOperation(ops: map<nat, Operation>, op: nat, mutation: bool)
    requires op !in ops
    ensures |ops[op := Operation(mutation, false)]| == |ops| + 1
    ensures Running(ops[op := Operation(mutation, false)]) == Running(ops)
  {
    assert ops[op := Operation(mutation, false)].Keys == ops.Keys + {op};
  }

  lemma StartOperation(ops: map<nat, Operation>, op: nat)
    requires op in ops && !ops[op].running
    ensures |ops[op := ops[op].(running := true)]| == |ops|
    ensures |Running(ops[op := ops[op].(running := true)])| == |Running(ops)| + 1
  {
    assert ops[op := ops[op].(running := true)].Keys == ops.Keys;
    assert Running(ops[op := ops[op].(running := true)]) == Running(ops) + {op};
  }

  lemma DropOperation(ops: map<nat, Operation>, op: nat)
    requires op in ops
    ensures |ops - {op}| == |ops| - 1
    ensures |Running(ops - {op})| <= |Running(ops)|
  {
    assert (ops - {op}).Keys == ops.Keys - {op};
    assert Running(ops - {op}) == Running(ops) - {op};
  }

  lemma CountersStep(c: Config, s: System, e: Event)
    requires CountersSound(c, s) && Enabled(c, s, e)
    ensures CountersSound(c, Next(c, s, e))
  {
    match e {
      case Entered(op, mutation, verdict) => AddOperation(s.ops, op, mutation);
      case Started(op, proceeds) => StartOperation(s.ops, op);
      case Left(op) => DropOperation(s.ops, op);
      case _ =>
    }
  }

  lemma DrainsStep(c: Config, s: System, e: Event)
    requires DrainsSound(s) && Enabled(c, s, e)
    ensures DrainsSound(Next(c, s, e))
  {
    match e {
      case Left(_) =>
      case Closing(_) =>
      case Checked(_) =>
      case _ =>
    }
  }

  /** An operation is dropped only while it is counted. */
  lemma LeavingNeverUnderflows(c: Config, s: System, op: nat)
    requires Sound(c, s) && Enabled(c, s, Left(op))
    ensures s.gate.active > 0
  {
    assert op in s.ops.Keys;
  }

  ghost predicate Behavior(c: Config, states: seq<System>, log: seq<Event>) {
    && |states| == |log| + 1
    && states[0] == Initial
    && forall i {:trigger log[i]} :: 0 <= i < |log| ==>
         Enabled(c, states[i], log[i]) && states[i + 1] == Next(c, states[i], log[i])
  }

  /** The counter is the number of live operations, in every interleaving. */
  lemma {:induction false} CounterIsExact(c: Config, states: seq<System>, log: seq<Event>, n: nat)
    requires Behavior(c, states, log) && n <= |log|
    ensures Sound(c, states[n]) && states[n].gate.active == |states[n].ops|
  {
    if n > 0 {
      CounterIsExact(c, states, log, n - 1);
      assert log[n - 1] == log[n - 1];
      CountersStep(c, states[n - 1], log[n - 1]);
      DrainsStep(c, states[n - 1], log[n - 1]);
    }
  }

  /** Closing is permanent. */
  lemma {:induction false} StaysClosed(c: Config, states: seq<System>, log: seq<Event>, i: nat, j: nat)
    requires Behavior(c, states, log) && i <= j <= |log|
    ensures !states[i].gate.accepting ==> !states[j].gate.accepting
    ensures states[i].gate.uncertain ==> states[j].gate.uncertain
    ensures !states[i].gate.accepting && states[i].gate.active == 0 ==> states[j].gate.active == 0
    decreases j
  {
    if i < j {
      StaysClosed(c, states, log, i, j - 1);
      assert log[j - 1] == log[j - 1];
    }
  }

  /** A drain that completes leaves nothing active and nothing is ever admitted again. */
  lemma CompletedDrainIsFinal(c: Config, states: seq<System>, log: seq<Event>, i: nat, j: nat, drain: nat)
    requires Behavior(c, states, log) && i <= j <= |log|
    requires drain in states[i].drains && states[i].drains[drain].Completed?
    ensures states[j].ops == map[] && states[j].gate.active == 0
    ensures j < |log| && log[j].Entered? ==> log[j].verdict == Refused(Closed)
  {
    CounterIsExact(c, states, log, i);
    CounterIsExact(c, states, log, j);
    assert states[i].drains != map[];
    StaysClosed(c, states, log, i, j);
    assert states[j].ops.Keys == {};
    if j < |log| {
      assert log[j] == log[j];
    }
  }

  /** Nobody sleeps through the end: with nothing active, a sleeping drain has a wake on its way. */
  lemma NoDrainLeftAsleep(c: Config, states: seq<System>, log: seq<Event>, n: nat, drain: nat)
    requires Behavior(c, states, log) && n <= |log|
    requires states[n].gate.active == 0 && drain in states[n].drains && states[n].drains[drain].Asleep?
    ensures Enabled(c, states[n], Delivered(drain))
    ensures Next(c, states[n], Delivered(drain)).drains[drain].Woken?
  {
    CounterIsExact(c, states, log, n);
  }

  /** A drain that is polled with nothing active completes, whatever happened to its waker. */
  lemma PollCompletes(c: Config, states: seq<System>, log: seq<Event>, n: nat, drain: nat)
    requires Behavior(c, states, log) && n + 2 <= |log|
    requires states[n].gate.active == 0
    requires log[n] == Registered(drain) && log[n + 1] == Checked(drain)
    ensures states[n + 2].drains[drain].Completed?
  {
    assert Enabled(c, states[n], log[n]) && Enabled(c, states[n + 1], log[n + 1]);
  }

  lemma SubsetSize(a: set<nat>, b: set<nat>)
    requires a <= b
    ensures |a| <= |b|
  {
    assert b == a + (b - a);
  }

  /** With one worker, no mutation runs after a commit of unknown outcome, not even one already queued. */
  lemma OneWorkerStops(c: Config, states: seq<System>, log: seq<Event>, i: nat, j: nat)
    requires c.workers == 1 && Behavior(c, states, log) && i < j <= |log|
    requires log[i].Committed? && !log[i].certain
    ensures j < |log| && log[j].Started? && states[j].ops[log[j].op].mutation ==> !log[j].proceeds
    ensures forall o :: o in states[i].ops && states[i].ops[o].running ==> o == log[i].op
    ensures j < |log| && log[j].Entered? && log[j].mutation ==> !log[j].verdict.Accepted?
  {
    assert Enabled(c, states[i], log[i]) && states[i + 1] == Next(c, states[i], log[i]);
    CounterIsExact(c, states, log, i);
    StaysClosed(c, states, log, i + 1, j);
    forall o | o in states[i].ops && states[i].ops[o].running
      ensures o == log[i].op
    {
      if o != log[i].op {
        assert {o, log[i].op} <= Running(states[i].ops);
        SubsetSize({o, log[i].op}, Running(states[i].ops));
      }
    }
    if j < |log| {
      assert Enabled(c, states[j], log[j]);
    }
  }

  /** The store has one worker: after a commit of unknown outcome it runs no mutation any more. */
  lemma NothingAfterUncertainty(states: seq<System>, log: seq<Event>, i: nat, j: nat)
    requires Behavior(STORE, states, log) && i < j <= |log|
    requires log[i].Committed? && !log[i].certain
    ensures j < |log| && log[j].Started? && states[j].ops[log[j].op].mutation ==> !log[j].proceeds
    ensures forall o :: o in states[i].ops && states[i].ops[o].running ==> o == log[i].op
    ensures j < |log| && log[j].Entered? && log[j].mutation ==> !log[j].verdict.Accepted?
  {
    OneWorkerStops(STORE, states, log, i, j);
  }

  lemma {:induction false} NeverAboveLimit(c: Config, states: seq<System>, log: seq<Event>, n: nat)
    requires c.limit.Some? && Behavior(c, states, log) && n <= |log|
    ensures states[n].gate.active <= c.limit.value
  {
    if n > 0 {
      NeverAboveLimit(c, states, log, n - 1);
      assert Enabled(c, states[n - 1], log[n - 1]) && states[n] == Next(c, states[n - 1], log[n - 1]);
    }
  }

  /** The transport never has more than two requests at once, and refuses one exactly if two are live. */
  lemma AtMostTwoRequests(states: seq<System>, log: seq<Event>, n: nat)
    requires Behavior(TRANSPORT, states, log) && n <= |log|
    ensures |states[n].ops| <= 2
    ensures n < |log| && log[n].Entered? && states[n].gate.accepting && !states[n].gate.uncertain ==>
      (log[n].verdict == Refused(Unavailable) <==> |states[n].ops| == 2)
  {
    CounterIsExact(TRANSPORT, states, log, n);
    NeverAboveLimit(TRANSPORT, states, log, n);
    assert n < |log| ==> Enabled(TRANSPORT, states[n], log[n]);
  }
}
