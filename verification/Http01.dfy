/** The HTTP-01 accept loop and request-line observer (`http/mod.rs`). Readiness, accepts, finished
    connections and shutdown are decided by the environment. */
module Http01 {
  import opened Types

  const MAX_CONNECTIONS: nat := 32
  const WORK_PER_POLL: nat := 64

  /** What an accept gives: a connection, an error of the peer that went away, or any other error. */
  datatype Accept = Accepted(at: nat) | Transient | Blocked

  datatype Connection = Connection(endpoint: nat, acceptedAt: nat, deadline: nat)

  /** Each endpoint is in exactly one of the ready queue and the waiting set. */
  ghost predicate Partition(endpoints: nat, ready: seq<nat>, waiting: set<nat>) {
    && (forall i, j :: 0 <= i < j < |ready| ==> ready[i] != ready[j])
    && (forall e :: e in ready ==> e !in waiting)
    && (forall e: nat :: e < endpoints <==> e in ready || e in waiting)
  }

  lemma Requeue(endpoints: nat, ready: seq<nat>, waiting: set<nat>)
    requires Partition(endpoints, ready, waiting) && ready != []
    ensures Partition(endpoints, ready[1..] + [ready[0]], waiting)
    ensures Partition(endpoints, ready[1..], waiting + {ready[0]})
  {
    assert ready == [ready[0]] + ready[1..];
    forall e | e in ready[1..]
      ensures e != ready[0] && e in ready
    {}
  }

  lemma BecomesReady(endpoints: nat, ready: seq<nat>, waiting: set<nat>, e: nat)
    requires Partition(endpoints, ready, waiting) && e in waiting
    ensures Partition(endpoints, ready + [e], waiting - {e})
  {}

  /** The queue and the waiting endpoints after these waits have ended, well or not. */
  function Heard(ready: seq<nat>, waiting: set<nat>, results: seq<(nat, bool)>): (seq<nat>, set<nat>) {
    if results == [] then (ready, waiting) else
    var (r, w) := Heard(ready, waiting, results[..|results| - 1]);
    var (index, ok) := results[|results| - 1];
    if ok && index in w then (r + [index], w - {index}) else (r, w)
  }

  /** Exactly the endpoints whose wait ended well stop waiting, and they come after those that were queued before. */
  lemma {:induction false} HeardMeans(ready: seq<nat>, waiting: set<nat>, results: seq<(nat, bool)>)
    ensures var (r, w) := Heard(ready, waiting, results);
      && (forall i :: i in w <==> i in waiting && (i, true) !in results)
      && ready <= r && (forall i :: i in r[|ready|..] <==> i in waiting && (i, true) in results)
  {
    if results != [] {
      var last := |results| - 1;
      HeardMeans(ready, waiting, results[..last]);
      assert results == results[..last] + [results[last]];
      var (r, w) := Heard(ready, waiting, results[..last]);
      var (index, ok) := results[last];
      if ok && index in w {
        assert (r + [index])[|ready|..] == r[|ready|..] + [index];
      }
    }
  }

  function UpTo(n: nat): seq<nat> {
    seq(n, i requires 0 <= i < n => i)
  }

  lemma AllReady(n: nat)
    ensures Partition(n, UpTo(n), {})
  {
    forall e: nat | e < n
      ensures e in UpTo(n)
    {
      assert UpTo(n)[e] == e;
    }
  }

  class Acceptor {
    const endpoints: nat
    const timeout: nat
    var ready: seq<nat>
    var waiting: set<nat>
    var connections: map<nat, Connection>
    var active: nat
    var nextId: nat
    ghost var accepts: seq<nat>

    /** Permits held are live connections, within capacity. */
    ghost predicate Valid()
      reads this
    {
      && Partition(endpoints, ready, waiting)
      && active == |connections| <= MAX_CONNECTIONS
      && Connected()
    }

    constructor (endpoints: nat, timeout: nat)
      ensures Valid() && connections == map[] && waiting == {} && accepts == []
      ensures this.endpoints == endpoints && this.timeout == timeout
    {
      this.endpoints, this.timeout := endpoints, timeout;
      ready := UpTo(endpoints);
      waiting, connections, active, nextId, accepts := {}, map[], 0, 0, [];
      AllReady(endpoints);
    }

    method Close(id: nat)
      requires Valid() && id in connections
      modifies `connections, `active
      ensures Valid() && connections == old(connections) - {id}
    {
      ghost var before := connections.Keys;
      connections := connections - {id};
      assert connections.Keys == before - {id};
      active := active - 1;
    }

    /** Drops the connections that have finished; each gives its permit back. */
    method Reap(finished: set<nat>)
      requires Valid()
      modifies `connections, `active
      ensures Valid() && connections.Keys == old(connections).Keys - finished
      ensures forall c :: c in connections ==> connections[c] == old(connections)[c]
    {
      var rest := finished * connections.Keys;
      while rest != {}
        invariant Valid() && rest == finished * connections.Keys
        invariant connections.Keys <= old(connections).Keys <= connections.Keys + finished
        invariant forall c :: c in connections ==> connections[c] == old(connections)[c]
        decreases rest
      {
        var id :| id in rest;
        Close(id);
        rest := rest - {id};
      }
      forall c | c in connections
        ensures c !in finished
      {
        assert c !in finished * connections.Keys;
      }
    }

    /** Moves endpoints that became ready to the queue; this never accepts, so it is safe at capacity. An endpoint
        whose wait failed waits again. */
    method Gather(results: seq<(nat, bool)>) returns (work: nat)
      requires Valid()
      modifies `ready, `waiting
      ensures Valid() && work == Min(|results|, WORK_PER_POLL / 2)
      ensures (ready, waiting) == Heard(old(ready), old(waiting), results[..work])
    {
      work := 0;
      while work < WORK_PER_POLL / 2 && work < |results|
        invariant Valid() && work <= Min(|results|, WORK_PER_POLL / 2)
        invariant (ready, waiting) == Heard(old(ready), old(waiting), results[..work])
      {
        var (index, ok) := results[work];
        if ok && index in waiting {
          BecomesReady(endpoints, ready, waiting, index);
          waiting := waiting - {index};
          ready := ready + [index];
        }
        work := work + 1;
        assert results[..work][..work - 1] == results[..work - 1];
      }
    }

    /** The connections are numbered below `nextId` and have the deadline they were accepted with. */
    ghost predicate Connected()
      reads this
    {
      forall c :: c in connections ==> c < nextId && connections[c].deadline == connections[c].acceptedAt + timeout
    }

    method Connect(endpoint: nat, at: nat)
      requires Connected()
      modifies `connections, `nextId
      ensures Connected() && nextId > old(nextId) && old(nextId) !in old(connections)
      ensures connections == old(connections)[old(nextId) := Connection(endpoint, at, at + timeout)]
      ensures |connections| == |old(connections)| + 1
    {
      ghost var before := connections;
      connections := connections[nextId := Connection(endpoint, at, at + timeout)];
      assert connections.Keys == before.Keys + {nextId};
      nextId := nextId + 1;
    }

    /** Accepts once on the endpoint at the front of the queue. The permit is taken before the accept and
        kept only by a connection, whose deadline is fixed now. The endpoint goes to the back of the queue, or waits
        if it has nothing to accept. */
    method AcceptOne(outcome: Accept)
      requires Valid() && ready != [] && active < MAX_CONNECTIONS
      modifies this
      ensures Valid()
      ensures accepts == old(accepts) + [old(ready)[0]]
      ensures ready == old(ready)[1..] + (if outcome.Blocked? then [] else [old(ready)[0]])
      ensures waiting == old(waiting) + (if outcome.Blocked? then {old(ready)[0]} else {})
      ensures if outcome.Accepted?
        then connections == old(connections)[old(nextId) := Connection(old(ready)[0], outcome.at, outcome.at + timeout)]
             && old(nextId) !in old(connections) && nextId > old(nextId)
        else connections == old(connections) && nextId == old(nextId) && active == old(active)
    {
      var index := ready[0];
      Requeue(endpoints, ready, waiting);
      active := active + 1;
      ready := ready[1..];
      accepts := accepts + [index];
      match outcome {
        case Accepted(at) =>
          Connect(index, at);
          ready := ready + [index];
        case Transient =>
          active := active - 1;
          ready := ready + [index];
        case Blocked =>
          active := active - 1;
          waiting := waiting + {index};
      }
    }

    /** Accepts until the queue is empty, the capacity or the work limit is reached, or shutdown comes.
        At capacity nothing is accepted and the queue keeps its readiness. */
    method AcceptReady(gathered: nat) returns (shutdown: Option<nat>, work: nat)
      requires Valid() && gathered <= WORK_PER_POLL / 2
      modifies this
      ensures Valid() && gathered <= work <= WORK_PER_POLL
      ensures old(accepts) <= accepts && |accepts| == |old(accepts)| + work - gathered
      ensures old(connections.Keys) <= connections.Keys
      ensures forall c :: c in old(connections) ==> connections[c] == old(connections)[c]
      ensures nextId >= old(nextId) && forall c :: c in connections && c !in old(connections) ==> c >= old(nextId)
      ensures old(active) == MAX_CONNECTIONS ==>
        ready == old(ready) && waiting == old(waiting) && connections == old(connections) && accepts == old(accepts)
      ensures shutdown.None? ==> work == WORK_PER_POLL || ready == [] || active == MAX_CONNECTIONS
    {
      shutdown, work := None, gathered;
      while work < WORK_PER_POLL && ready != []
        invariant Valid() && gathered <= work <= WORK_PER_POLL
        invariant old(accepts) <= accepts && |accepts| == |old(accepts)| + work - gathered
        invariant old(connections.Keys) <= connections.Keys
        invariant forall c :: c in old(connections) ==> connections[c] == old(connections)[c]
        invariant nextId >= old(nextId)
        invariant forall c :: c in connections && c !in old(connections) ==> c >= old(nextId)
        invariant old(active) == MAX_CONNECTIONS ==>
          active == MAX_CONNECTIONS && ready == old(ready) && waiting == old(waiting)
            && connections == old(connections) && accepts == old(accepts)
      {
        var stop: bool := *;
        if stop {
          var deadline: nat :| 0 <= deadline;
          return Some(deadline), work;
        }
        if active == MAX_CONNECTIONS {
          return;
        }
        var accepted: bool, transient: bool := *, *;
        var at: nat :| 0 <= at;
        AcceptOne(if accepted then Accepted(at) else if transient then Transient else Blocked);
        work := work + 1;
      }
    }

    /** One poll of the loop; `Some` is the shutdown deadline. Finished connections are gone. At capacity readiness
        is kept and nothing is accepted. It asks to be polled again exactly when it did some work, and otherwise
        nothing was left that it could accept. */
    method Poll(finished: set<nat>, results: seq<(nat, bool)>) returns (shutdown: Option<nat>, work: nat, woken: bool)
      requires Valid()
      modifies this
      ensures Valid() && work <= WORK_PER_POLL
      ensures nextId >= old(nextId) && forall c :: c in connections && c !in old(connections) ==> c >= old(nextId)
      ensures forall c :: c in connections && c in old(connections) ==> connections[c] == old(connections)[c]
      ensures old(accepts) <= accepts && |accepts| <= |old(accepts)| + work
      ensures shutdown.None? ==>
        && (forall c :: c in old(connections) ==> (c in connections <==> c !in finished))
        && (|old(connections).Keys - finished| == MAX_CONNECTIONS ==>
              && accepts == old(accepts)
              && (ready, waiting) == Heard(old(ready), old(waiting), results[..Min(|results|, WORK_PER_POLL / 2)]))
        && work >= Min(|results|, WORK_PER_POLL / 2)
        && woken == (work > 0) && (!woken ==> ready == [] || active == MAX_CONNECTIONS)
    {
      shutdown, work, woken := None, 0, false;
      var stop: bool := *;
      if stop {
        var deadline: nat :| 0 <= deadline;
        return Some(deadline), 0, false;
      }
      Reap(finished);
      stop := *;
      if stop {
        var deadline: nat :| 0 <= deadline;
        return Some(deadline), 0, false;
      }
      var gathered := Gather(results);
      shutdown, work := AcceptReady(gathered);
      woken := shutdown.None? && work > 0;
    }

    /** Any number of polls, until shutdown: a connection that is still alive has the deadline it was given, and
        a number is never given to another connection. */
    method Serve(polls: nat) returns (shutdown: Option<nat>, polled: nat)
      requires Valid()
      modifies this
      ensures shutdown.None? ==> polled == polls
      ensures Valid() && nextId >= old(nextId) && old(accepts) <= accepts
      ensures forall c :: c in connections && c < old(nextId) ==>
        c in old(connections) && connections[c] == old(connections)[c]
    {
      shutdown, polled := None, 0;
      while polled < polls && shutdown.None?
        invariant polled <= polls
        invariant Valid() && nextId >= old(nextId) && old(accepts) <= accepts
        invariant forall c :: c in connections && c < old(nextId) ==>
          c in old(connections) && connections[c] == old(connections)[c]
      {
        var finished: set<nat>, results: seq<(nat, bool)> := *, *;
        var work, woken;
        shutdown, work, woken := Poll(finished, results);
        polled := polled + 1;
      }
    }
  }

  // ----- the request line -----

  datatype Scan = Scan(fragment: bool, nonempty: bool, done: bool)

  const Unread: Scan := Scan(false, false, false)

  function Step(s: Scan, c: char): Scan {
    if s.done then s
    else if c == '\n' && s.nonempty then s.(done := true)
    else if c == '\r' || c == '\n' then s
    else if c == '#' then s.(fragment := true, nonempty := true)
    else s.(nonempty := true)
  }

  function Fold(s: Scan, bytes: string): Scan {
    if bytes == [] then s else Step(Fold(s, bytes[..|bytes| - 1]), bytes[|bytes| - 1])
  }

  class RequestLineObserver {
    var fragment: bool
    var nonempty: bool
    var done: bool

    ghost function View(): Scan
      reads this
    {
      Scan(fragment, nonempty, done)
    }

    constructor ()
      ensures View() == Unread
    {
      fragment, nonempty, done := false, false, false;
    }

    /** Looks at the bytes of one read, and stops at the end of the request line. */
    method Read(buffer: string)
      modifies this
      ensures View() == Fold(old(View()), buffer)
    {
      for k := 0 to |buffer|
        invariant View() == Fold(old(View()), buffer[..k])
      {
        if done {
          StaysDone(View(), buffer[k..]);
          FoldConcat(old(View()), buffer[..k], buffer[k..]);
          assert buffer == buffer[..k] + buffer[k..];
          break;
        }
        assert buffer[..k + 1][..k] == buffer[..k];
        var byte := buffer[k];
        if byte == '\n' && nonempty {
          done := true;
        } else if byte == '\r' || byte == '\n' {
        } else if byte == '#' {
          fragment := true;
          nonempty := true;
        } else {
          nonempty := true;
        }
      }
      assert done || buffer[..|buffer|] == buffer;
    }
  }

  lemma {:induction false} StaysDone(s: Scan, bytes: string)
    requires s.done
    ensures Fold(s, bytes) == s
  {
    if bytes != [] {
      StaysDone(s, bytes[..|bytes| - 1]);
    }
  }

  /** How the bytes are split into reads does not matter. */
  lemma {:induction false} FoldConcat(s: Scan, a: string, b: string)
    ensures Fold(s, a + b) == Fold(Fold(s, a), b)
  {
    if b == [] {
      assert a + b == a;
    } else {
      FoldConcat(s, a, b[..|b| - 1]);
      assert (a + b)[..|a + b| - 1] == a + b[..|b| - 1];
    }
  }

  predicate Blank(c: char) {
    c == '\r' || c == '\n'
  }

  /** Position `i` is on the request line: some byte that is not a line end comes at or before it,
      and no line feed comes between that byte and `i`. */
  ghost predicate OnRequestLine(bytes: string, i: nat) {
    && i < |bytes|
    && (exists k :: 0 <= k <= i && !Blank(bytes[k]))
    && (forall k, m :: 0 <= k < m <= i && !Blank(bytes[k]) ==> bytes[m] != '\n')
  }

  ghost predicate HasText(bytes: string) {
    exists k :: 0 <= k < |bytes| && !Blank(bytes[k])
  }

  ghost predicate Ended(bytes: string) {
    exists k, m :: 0 <= k < m < |bytes| && !Blank(bytes[k]) && bytes[m] == '\n'
  }

  ghost predicate HasMark(bytes: string) {
    exists i: nat :: OnRequestLine(bytes, i) && bytes[i] == '#'
  }

  lemma EndExtends(rest: string, c: char)
    ensures HasText(rest + [c]) <==> HasText(rest) || !Blank(c)
    ensures Ended(rest + [c]) <==> Ended(rest) || (HasText(rest) && c == '\n')
  {
    var bytes, n := rest + [c], |rest|;
    assert forall k :: 0 <= k < n ==> bytes[k] == rest[k];
    assert bytes[n] == c;
    if HasText(rest) && c == '\n' {
      var k :| 0 <= k < n && !Blank(rest[k]);
      assert !Blank(bytes[k]) && bytes[n] == '\n';
    }
  }

  lemma MarkExtends(rest: string, c: char)
    ensures HasMark(rest + [c]) <==> HasMark(rest) || (c == '#' && !Ended(rest))
  {
    var bytes, n := rest + [c], |rest|;
    assert forall k :: 0 <= k < n ==> bytes[k] == rest[k];
    forall i: nat | i < n
      ensures OnRequestLine(bytes, i) <==> OnRequestLine(rest, i)
    {}
    assert bytes[n] == c;
    if c == '#' && !Ended(rest) {
      assert OnRequestLine(bytes, n);
    }
  }

  /** The flag is set exactly when the request line contains a fragment mark. */
  lemma {:induction false} FragmentMeaning(bytes: string)
    ensures Fold(Unread, bytes).fragment <==> HasMark(bytes)
    ensures Fold(Unread, bytes).nonempty <==> HasText(bytes)
    ensures Fold(Unread, bytes).done <==> Ended(bytes)
  {
    if bytes != [] {
      var n := |bytes| - 1;
      FragmentMeaning(bytes[..n]);
      EndExtends(bytes[..n], bytes[n]);
      MarkExtends(bytes[..n], bytes[n]);
      assert bytes == bytes[..n] + [bytes[n]];
    }
  }
}
