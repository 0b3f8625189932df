/** What the issuer learns from HTTP traffic (`DirectoryClient`, `Upstream::arm`, `snapshot`,
    `classify_observed` in `issuer/mod.rs`). Responses may arrive late, after another arm or a reset. */
module Observations {
  import opened Types

  /** The order fields of a successful response body, if it parses. */
  datatype Metadata = Metadata(location: Option<Url>, dns: string, expires: Option<nat>) | Malformed

  datatype Armed = Armed(target: Url, slot: nat)

  /** What a request remembers from the moment it was sent. */
  datatype Ticket = Ticket(slot: Option<nat>, operation: Option<nat>)

  datatype Watch = Watch(
    armed: Option<Armed>,
    request: Option<nat>,
    status: Option<(nat, bool)>,
    slots: map<nat, Metadata>,
    tickets: map<nat, Ticket>,
    nextSlot: nat)

  const Initial: Watch := Watch(None, None, None, map[], map[], 0)

  /** How a CA step fails: with the problem document in the response to request `id`, or in another way. */
  datatype Error = Api(id: nat) | Other

  datatype Event =
    | Arm(target: Url)
    | Send(id: nat, post: bool, uri: Url)
    | Status(id: nat, code: nat)
    | Body(id: nat, metadata: Metadata)
    | Fail(error: Error, orderResource: bool)
    | Take
    | Reset

  function Operation(w: Watch): Option<nat> {
    if w.armed.Some? then Some(w.armed.value.slot) else None
  }

  /** A step fails with the answer to a request of its own, and the steps on the order resource arm it first. */
  predicate Enabled(w: Watch, e: Event) {
    match e
    case Send(id, _, _) => id !in w.tickets
    case Status(id, _) => id in w.tickets
    case Body(id, _) => id in w.tickets
    case Fail(error, orderResource) =>
      && (error.Api? ==> error.id in w.tickets && w.tickets[error.id].operation == Operation(w))
      && (orderResource ==> w.armed.Some?)
    case _ => true
  }

  function Hits(w: Watch, post: bool, uri: Url): bool {
    w.armed.Some? && post && uri == w.armed.value.target
  }

  function Next(w: Watch, e: Event): Watch
    requires Enabled(w, e)
  {
    match e
    case Arm(target) => w.(armed := Some(Armed(target, w.nextSlot)), nextSlot := w.nextSlot + 1)
    case Send(id, post, uri) =>
      w.(request := Some(id), status := None,
         tickets := w.tickets[id := Ticket(if Hits(w, post, uri) then Operation(w) else None, Operation(w))])
    case Status(id, code) =>
      if w.tickets[id].operation == Operation(w) && w.request == Some(id)
      then w.(status := Some((code, w.tickets[id].slot.Some?))) else w
    case Body(id, metadata) =>
      if w.tickets[id].slot.Some? && w.tickets[id].slot == Operation(w)
      then w.(slots := w.slots[w.tickets[id].slot.value := metadata]) else w
    case Fail(_, _) => w
    case Take => w.(armed := None)
    case Reset => w.(request := None, status := None)
  }

  /** `snapshot` reads the slot of the armed operation. */
  function Snapshot(w: Watch): Option<Metadata> {
    if w.armed.Some? && w.armed.value.slot in w.slots then Some(w.slots[w.armed.value.slot]) else None
  }

  /** The recorded status says that the target is gone. */
  predicate Gone(w: Watch) {
    w.status.Some? && w.status.value.1 && (w.status.value.0 == 404 || w.status.value.0 == 410)
  }

  /** `classify_observed`: an API error on the order resource ends the order if its target is gone. */
  predicate Terminal(w: Watch, error: Error, orderResource: bool) {
    error.Api? && orderResource && Gone(w)
  }

  ghost predicate Behavior(states: seq<Watch>, log: seq<Event>) {
    && |states| == |log| + 1
    && states[0] == Initial
    && forall i {:trigger log[i]} :: 0 <= i < |log| ==>
         Enabled(states[i], log[i]) && states[i + 1] == Next(states[i], log[i])
  }

  /** Event `i` armed the operation that is current after `n` events. */
  ghost predicate ArmedAt(states: seq<Watch>, log: seq<Event>, n: nat, i: nat)
    requires |states| == |log| + 1
  {
    && i < n <= |log| && states[n].armed.Some?
    && log[i] == Arm(states[n].armed.value.target)
    && forall k :: i < k < n ==> !log[k].Arm? && !log[k].Take?
  }

  lemma {:induction false} LastArm(states: seq<Watch>, log: seq<Event>, n: nat) returns (i: nat)
    requires Behavior(states, log) && n <= |log| && states[n].armed.Some?
    ensures ArmedAt(states, log, n, i)
    ensures states[i + 1].armed == states[n].armed
    ensures forall k :: i < k <= n ==> states[k].armed == states[n].armed
  {
    assert n > 0 && log[n - 1] == log[n - 1];
    if log[n - 1].Arm? {
      i := n - 1;
    } else {
      i := LastArm(states, log, n - 1);
    }
  }

  /** Slots are numbered: what is armed, ticketed or filled is below the counter. */
  predicate Numbered(w: Watch) {
    && (w.armed.Some? ==> w.armed.value.slot < w.nextSlot)
    && (forall s :: s in w.slots ==> s < w.nextSlot)
    && (forall id :: id in w.tickets && w.tickets[id].operation.Some? ==> w.tickets[id].operation.value < w.nextSlot)
    && (forall id :: id in w.tickets && w.tickets[id].slot.Some? ==> w.tickets[id].slot == w.tickets[id].operation)
  }

  lemma {:induction false} AlwaysNumbered(states: seq<Watch>, log: seq<Event>, n: nat)
    requires Behavior(states, log) && n <= |log|
    ensures Numbered(states[n])
  {
    if n > 0 {
      assert log[n - 1] == log[n - 1];
      AlwaysNumbered(states, log, n - 1);
    }
  }

  /** A ticket for the current operation belongs to a request sent after the current arm,
      and one that may fill the slot to a POST to the armed target. */
  lemma {:induction false} TicketOrigin(states: seq<Watch>, log: seq<Event>, n: nat, i: nat, id: nat) returns (j: nat)
    requires Behavior(states, log) && n <= |log| && ArmedAt(states, log, n, i)
    requires id in states[n].tickets && states[n].tickets[id].operation == Operation(states[n])
    ensures i < j < n && log[j].Send? && log[j].id == id
    ensures states[n].tickets[id].slot.Some? <==> log[j].post && log[j].uri == states[n].armed.value.target
    decreases n
  {
    assert log[n - 1] == log[n - 1];
    AlwaysNumbered(states, log, n - 1);
    if log[n - 1].Send? && log[n - 1].id == id {
      var _ := LastArm(states, log, n);
      j := n - 1;
    } else if i < n - 1 {
      j := TicketOrigin(states, log, n - 1, i, id);
    } else {
      assert false;
    }
  }

  /** Order metadata comes only from the response to a POST to the armed target sent after that arm. */
  lemma {:induction false} SnapshotOrigin(states: seq<Watch>, log: seq<Event>, n: nat)
    returns (i: nat, j: nat, k: nat)
    requires Behavior(states, log) && n <= |log| && Snapshot(states[n]).Some?
    ensures ArmedAt(states, log, n, i)
    ensures i < j < k < n && log[j].Send? && log[j].post && log[j].uri == states[n].armed.value.target
    ensures log[k] == Body(log[j].id, Snapshot(states[n]).value)
  {
    i := LastArm(states, log, n);
    assert log[n - 1] == log[n - 1];
    AlwaysNumbered(states, log, n - 1);
    if log[n - 1].Body? && states[n - 1] != states[n] {
      k := n - 1;
      j := TicketOrigin(states, log, n - 1, i, log[n - 1].id);
    } else {
      var _, j', k' := SnapshotOrigin(states, log, n - 1);
      j, k := j', k';
    }
  }

  // ----- terminal verdicts -----

  /** `log[j]` is the latest request since the last reset, `log[k]` is its response, and it set the status. */
  ghost predicate StatusAt(states: seq<Watch>, log: seq<Event>, n: nat, j: nat, k: nat)
    requires |states| == |log| + 1
  {
    && j < k < n <= |log| && states[n].status.Some?
    && log[j].Send? && log[k] == Status(log[j].id, states[n].status.value.0)
    && (forall m :: j < m < n ==> !log[m].Send? && !log[m].Reset?)
    && (forall m :: k < m <= n ==> states[m].status == states[n].status)
    && log[j].id in states[k].tickets && states[k].tickets[log[j].id].operation == Operation(states[k])
    && states[n].status.value.1 == states[k].tickets[log[j].id].slot.Some?
  }

  lemma {:induction false} StatusOrigin(states: seq<Watch>, log: seq<Event>, n: nat) returns (j: nat, k: nat)
    requires Behavior(states, log) && n <= |log| && states[n].status.Some?
    ensures StatusAt(states, log, n, j, k)
  {
    assert n > 0 && log[n - 1] == log[n - 1];
    if log[n - 1].Status? && states[n].request == Some(log[n - 1].id)
       && states[n - 1].tickets[log[n - 1].id].operation == Operation(states[n - 1]) {
      k := n - 1;
      j := LatestRequest(states, log, n - 1);
    } else {
      j, k := StatusOrigin(states, log, n - 1);
    }
  }

  lemma {:induction false} LatestRequest(states: seq<Watch>, log: seq<Event>, n: nat) returns (j: nat)
    requires Behavior(states, log) && n <= |log| && states[n].request.Some?
    ensures j < n && log[j].Send? && log[j].id == states[n].request.value
    ensures forall m :: j < m < n ==> !log[m].Send? && !log[m].Reset?
  {
    assert n > 0 && log[n - 1] == log[n - 1];
    if log[n - 1].Send? {
      j := n - 1;
    } else {
      j := LatestRequest(states, log, n - 1);
    }
  }

  /** The verdict speaks of the current operation: its latest request was a POST to the armed order
      and was answered with 404 or 410. */
  ghost predicate Justified(states: seq<Watch>, log: seq<Event>, n: nat, i: nat, j: nat, k: nat)
    requires |states| == |log| + 1
  {
    && ArmedAt(states, log, n, i)
    && i < j < k < n
    && log[j].Send? && log[j].post && log[j].uri == states[n].armed.value.target
    && (forall m :: j < m < n ==> !log[m].Send?)
    && (log[k] == Status(log[j].id, 404) || log[k] == Status(log[j].id, 410))
  }

  ghost predicate IsJustified(states: seq<Watch>, log: seq<Event>, n: nat, i: nat)
    requires |states| == |log| + 1
  {
    exists j, k :: Justified(states, log, n, i, j, k)
  }

  /** A recorded 404 or 410 speaks of the armed order exactly when some request was sent since the last arm:
      an arm alone does not clear the status of the operation before it. */
  lemma TerminalExactly(states: seq<Watch>, log: seq<Event>, n: nat, i: nat)
    requires Behavior(states, log) && n <= |log| && ArmedAt(states, log, n, i)
    requires Gone(states[n])
    ensures IsJustified(states, log, n, i) <==> exists m :: i < m < n && log[m].Send?
  {
    if m :| i < m < n && log[m].Send? {
      var j, k := StatusOrigin(states, log, n);
      assert log[m] == log[m] && states[m + 1].status.None?;
      assert m <= j;
      var i' := LastArm(states, log, n);
      assert i' == i;
      assert ArmedAt(states, log, k, i);
      HitsTarget(states, log, k, i, j);
      assert Justified(states, log, n, i, j, k);
    }
  }

  /** In every interleaving, a failure declares an order finished only if the latest request of the current
      operation was a POST to that order that was answered with 404 or 410. */
  lemma TerminalIsJustified(states: seq<Watch>, log: seq<Event>, n: nat) returns (i: nat)
    requires Behavior(states, log) && n < |log|
    requires log[n].Fail? && Terminal(states[n], log[n].error, log[n].orderResource)
    ensures IsJustified(states, log, n, i)
  {
    i := LastArm(states, log, n);
    var m := TicketOrigin(states, log, n, i, log[n].error.id);
    TerminalExactly(states, log, n, i);
  }

  lemma OwnVerdict(states: seq<Watch>, log: seq<Event>, n: nat, arm: nat)
    requires Behavior(states, log) && n < |log| && ArmedAt(states, log, n, arm)
    requires log[n].Fail? && Terminal(states[n], log[n].error, log[n].orderResource)
    ensures IsJustified(states, log, n, arm)
  {
    var i := TerminalIsJustified(states, log, n);
    assert i == arm;
  }

  /** Arming alone keeps the status: here the 404 of one order is still recorded when the next one is armed.
      No verdict can be drawn from it, because the new operation has no request that could fail yet. */
  lemma ArmKeepsStatus() returns (states: seq<Watch>, log: seq<Event>)
    ensures Behavior(states, log) && ArmedAt(states, log, 4, 3) && Gone(states[4])
    ensures states[4].armed.value.target != "a" && log[1] == Send(0, true, "a")
    ensures forall error, orderResource ::
      Enabled(states[4], Fail(error, orderResource)) ==> !Terminal(states[4], error, orderResource)
  {
    log := [Arm("a"), Send(0, true, "a"), Status(0, 404), Arm("b")];
    var s1 := Next(Initial, log[0]);
    var s2 := Next(s1, log[1]);
    var s3 := Next(s2, log[2]);
    states := [Initial, s1, s2, s3, Next(s3, log[3])];
  }

  lemma HitsTarget(states: seq<Watch>, log: seq<Event>, k: nat, i: nat, j: nat)
    requires Behavior(states, log) && k <= |log| && ArmedAt(states, log, k, i)
    requires j < k && log[j].Send? && log[j].id in states[k].tickets
    requires states[k].tickets[log[j].id].operation == Operation(states[k]) && states[k].tickets[log[j].id].slot.Some?
    ensures i < j && log[j].post && log[j].uri == states[k].armed.value.target
  {
    var j' := TicketOrigin(states, log, k, i, log[j].id);
    SentOnce(states, log, j, j');
  }

  lemma SentOnce(states: seq<Watch>, log: seq<Event>, j: nat, j': nat)
    requires Behavior(states, log) && j < |log| && j' < |log| && log[j].Send? && log[j'].Send?
      && log[j].id == log[j'].id
    ensures j == j'
  {
    if j < j' {
      TicketsRemain(states, log, j + 1, j', log[j].id);
    } else if j' < j {
      TicketsRemain(states, log, j' + 1, j, log[j].id);
    }
  }

  lemma {:induction false} TicketsRemain(states: seq<Watch>, log: seq<Event>, i: nat, j: nat, id: nat)
    requires Behavior(states, log) && i <= j <= |log| && id in states[i].tickets
    ensures id in states[j].tickets && states[j].tickets[id] == states[i].tickets[id]
    decreases j
  {
    if i < j {
      assert log[j - 1] == log[j - 1];
      TicketsRemain(states, log, i, j - 1, id);
    }
  }

  // ----- the shared record -----

  /** The record that the steps of one engine and its HTTP client share, with the history of its changes. */
  class Observer {
    var armed: Option<Armed>
    var request: Option<nat>
    var status: Option<(nat, bool)>
    var slots: map<nat, Metadata>
    var tickets: map<nat, Ticket>
    var nextSlot: nat
    ghost var states: seq<Watch>
    ghost var log: seq<Event>

    function View(): Watch
      reads this
    {
      Watch(armed, request, status, slots, tickets, nextSlot)
    }

    ghost predicate Valid()
      reads this
    {
      Behavior(states, log) && states[|log|] == View()
    }

    /** Event `e` was added to the history, which now ends in the present record. */
    twostate predicate Recorded(e: Event)
      reads this
    {
      log == old(log) + [e] && states == old(states) + [View()]
    }

    constructor ()
      ensures Valid() && View() == Initial && log == []
    {
      armed, request, status, slots, tickets, nextSlot := None, None, None, map[], map[], 0;
      states, log := [Initial], [];
    }

    ghost method Record(e: Event)
      requires Behavior(states, log) && Enabled(states[|log|], e) && View() == Next(states[|log|], e)
      modifies `states, `log
      ensures Valid() && Recorded(e)
    {
      ghost var before := log;
      states, log := states + [View()], log + [e];
      assert forall i :: 0 <= i < |before| ==> log[i] == before[i];
    }

    method ArmTarget(target: Url)
      requires Valid()
      modifies this
      ensures Valid() && Recorded(Arm(target)) && View() == Next(old(View()), Arm(target))
    {
      armed := Some(Armed(target, nextSlot));
      nextSlot := nextSlot + 1;
      Record(Arm(target));
    }

    method SendRequest(id: nat, post: bool, uri: Url)
      requires Valid() && id !in tickets
      modifies this
      ensures Valid() && Recorded(Send(id, post, uri)) && View() == Next(old(View()), Send(id, post, uri))
    {
      request := Some(id);
      status := None;
      var operation := if armed.Some? then Some(armed.value.slot) else None;
      var slot := if armed.Some? && post && uri == armed.value.target then operation else None;
      tickets := tickets[id := Ticket(slot, operation)];
      Record(Send(id, post, uri));
    }

    method ReceiveStatus(id: nat, code: nat)
      requires Valid() && id in tickets
      modifies this
      ensures Valid() && Recorded(Status(id, code)) && View() == Next(old(View()), Status(id, code))
    {
      var current := match (tickets[id].operation, armed) {
        case (None, None) => true
        case (Some(operation), Some(now)) => operation == now.slot
        case _ => false
      };
      if current && request == Some(id) {
        status := Some((code, tickets[id].slot.Some?));
      }
      Record(Status(id, code));
    }

    method ReceiveBody(id: nat, metadata: Metadata)
      requires Valid() && id in tickets
      modifies this
      ensures Valid() && Recorded(Body(id, metadata)) && View() == Next(old(View()), Body(id, metadata))
    {
      if tickets[id].slot.Some? && armed.Some? && armed.value.slot == tickets[id].slot.value {
        slots := slots[armed.value.slot := metadata];
      }
      Record(Body(id, metadata));
    }

    method TakeSnapshot() returns (r: Option<Metadata>)
      requires Valid()
      modifies this
      ensures Valid() && Recorded(Take) && r == Snapshot(old(View())) && View() == Next(old(View()), Take)
    {
      r := if armed.Some? && armed.value.slot in slots then Some(slots[armed.value.slot]) else None;
      armed := None;
      Record(Take);
    }

    method ResetObservations()
      requires Valid()
      modifies this
      ensures Valid() && Recorded(Reset) && View() == Next(old(View()), Reset)
    {
      request := None;
      status := None;
      Record(Reset);
    }

    /** A step fails: is its order finished? */
    method Classify(error: Error, orderResource: bool) returns (terminal: bool)
      requires Valid() && Enabled(View(), Fail(error, orderResource))
      modifies `states, `log
      ensures Valid() && Recorded(Fail(error, orderResource)) && terminal == Terminal(View(), error, orderResource)
    {
      terminal := error.Api? && orderResource && status.Some? && status.value.1
                  && (status.value.0 == 404 || status.value.0 == 410);
      Record(Fail(error, orderResource));
    }

    /** A request of the current step, or a response to any request ever sent. `own` are the step's requests. */
    method Traffic(own: set<nat>) returns (now: set<nat>)
      requires Valid() && forall id :: id in own ==> id in tickets && tickets[id].operation == Operation(View())
      modifies this
      ensures Valid() && armed == old(armed)
      ensures forall id :: id in now ==> id in tickets && tickets[id].operation == Operation(View())
      ensures states[..|states| - 1] == old(states) && log[..|log| - 1] == old(log)
      ensures !log[|log| - 1].Arm? && !log[|log| - 1].Take?
    {
      var id: nat, code: nat :| 0 <= id && 0 <= code;
      var post: bool, uri: Url, body: bool, metadata: Metadata := *, *, *, *;
      now := own;
      if id !in tickets {
        SendRequest(id, post, uri);
        now := own + {id};
      } else if body {
        ReceiveBody(id, metadata);
      } else {
        ReceiveStatus(id, code);
      }
    }

    /** The event `log[arm]` armed the current step, whose requests are `own`. */
    ghost predicate Stepping(arm: nat, own: set<nat>)
      reads this
    {
      && Valid() && ArmedAt(states, log, |log|, arm)
      && forall id :: id in own ==> id in tickets && tickets[id].operation == Operation(View())
    }

    /** Any number of requests and responses. */
    method Exchange(ghost arm: nat) returns (own: set<nat>)
      requires Stepping(arm, {})
      modifies this
      ensures Stepping(arm, own) && old(log) <= log && old(states) <= states
    {
      own := {};
      var exchanges: nat :| 0 <= exchanges;
      while exchanges > 0
        invariant Stepping(arm, own) && old(log) <= log && old(states) <= states
      {
        own := Traffic(own);
        exchanges := exchanges - 1;
      }
    }

    /** The end of a step on the order resource. */
    method Conclude(ghost arm: nat, own: set<nat>) returns (terminal: bool)
      requires Stepping(arm, own)
      modifies this
      ensures Valid() && states[..|states| - 1] == old(states) && log[..|log| - 1] == old(log)
      ensures terminal ==> IsJustified(states, log, |log| - 1, arm)
      ensures log[|log| - 1] == Take || (log[|log| - 1].Fail? && log[|log| - 1].orderResource)
      ensures terminal <==>
        var e := log[|log| - 1]; e.Fail? && Terminal(states[|log| - 1], e.error, e.orderResource)
    {
      var failed: bool, api: bool := *, *;
      if !failed {
        var _ := TakeSnapshot();
        return false;
      }
      if api && own != {} {
        var id :| id in own;
        terminal := Classify(Api(id), true);
        if terminal {
          OwnVerdict(states, log, |log| - 1, arm);
        }
      } else {
        terminal := Classify(Error.Other, true);
      }
    }

    /** A step on the order resource, as `before` and then `resume` or `refresh` take it: reset, arm, exchange
        requests while answers to older ones may still arrive, and take the snapshot or classify the failure.
        The arm finds no status, and a terminal verdict rests on the step's own latest request. */
    method OrderStep(target: Url) returns (terminal: bool)
      requires Valid()
      modifies this
      ensures Valid() && old(log) + [Reset, Arm(target)] < log
      ensures states[|old(log)| + 1].status.None?
      ensures terminal ==> IsJustified(states, log, |log| - 1, |old(log)| + 1)
      ensures log[|log| - 1] == Take || (log[|log| - 1].Fail? && log[|log| - 1].orderResource)
      ensures terminal <==>
        var e := log[|log| - 1]; e.Fail? && Terminal(states[|log| - 1], e.error, e.orderResource)
    {
      ResetObservations();
      ArmTarget(target);
      ghost var arm := |old(log)| + 1;
      var own := Exchange(arm);
      terminal := Conclude(arm, own);
    }
  }

  // ----- retry hints -----

  /** Each reset installs a fresh cell; a request writes to the cell that was current when it began. */
  datatype Hints = Hints(current: nat, cells: map<nat, int>, began: map<nat, nat>)

  const NoHints: Hints := Hints(0, map[], map[])

  datatype HintEvent = Begin(id: nat) | Capture(id: nat, deadline: int) | ResetHint

  predicate HintEnabled(h: Hints, e: HintEvent) {
    match e
    case Begin(id) => id !in h.began
    case Capture(id, _) => id in h.began
    case ResetHint => true
  }

  function HintNext(h: Hints, e: HintEvent): Hints
    requires HintEnabled(h, e)
  {
    match e
    case Begin(id) => h.(began := h.began[id := h.current])
    case Capture(id, deadline) =>
      var cell := h.began[id];
      h.(cells := h.cells[cell := if cell in h.cells then Max(h.cells[cell], deadline) else deadline])
    case ResetHint => h.(current := h.current + 1)
  }

  function Hint(h: Hints): Option<int> {
    if h.current in h.cells then Some(h.cells[h.current]) else None
  }

  /** The transport's retry context: a swappable cell. */
  class RetryContext {
    var current: nat
    var cells: map<nat, int>
    var began: map<nat, nat>

    function View(): Hints
      reads this
    {
      Hints(current, cells, began)
    }

    constructor ()
      ensures View() == NoHints
    {
      current, cells, began := 0, map[], map[];
    }

    method BeginRequest(id: nat)
      requires id !in began
      modifies this
      ensures View() == HintNext(old(View()), Begin(id))
    {
      began := began[id := current];
    }

    /** A response may carry several deadlines; each one can only raise the hint. */
    method CaptureRetry(id: nat, deadlines: seq<int>)
      requires id in began
      modifies this
      ensures View() == Captured(old(View()), id, deadlines)
    {
      for k := 0 to |deadlines|
        invariant began == old(began) && View() == Captured(old(View()), id, deadlines[..k])
      {
        var cell := began[id];
        cells := cells[cell := if cell in cells then Max(cells[cell], deadlines[k]) else deadlines[k]];
        assert deadlines[..k + 1][..k] == deadlines[..k];
      }
      assert deadlines[..|deadlines|] == deadlines;
    }

    method ResetRetryHint()
      modifies this
      ensures View() == HintNext(old(View()), ResetHint)
    {
      current := current + 1;
    }

    method RetryNotBefore() returns (r: Option<int>)
      ensures r == Hint(View())
    {
      r := if current in cells then Some(cells[current]) else None;
    }
  }

  function Captured(h: Hints, id: nat, deadlines: seq<int>): (r: Hints)
    requires id in h.began
    ensures r.began == h.began && r.current == h.current
  {
    if deadlines == [] then h else
    HintNext(Captured(h, id, deadlines[..|deadlines| - 1]), Capture(id, deadlines[|deadlines| - 1]))
  }

  ghost predicate HintBehavior(states: seq<Hints>, log: seq<HintEvent>) {
    && |states| == |log| + 1
    && states[0] == NoHints
    && forall i {:trigger log[i]} :: 0 <= i < |log| ==>
         HintEnabled(states[i], log[i]) && states[i + 1] == HintNext(states[i], log[i])
  }

  /** `log[b]` began this request and no reset came between it and `n`. */
  ghost predicate BegunAt(log: seq<HintEvent>, n: nat, id: nat, b: nat)
    requires n <= |log|
  {
    b < n && log[b] == Begin(id) && forall m :: b < m < n ==> !log[m].ResetHint?
  }

  ghost predicate Begun(log: seq<HintEvent>, n: nat, id: nat)
    requires n <= |log|
  {
    exists b: nat :: BegunAt(log, n, id, b)
  }

  /** `log[k]` captured a deadline of a request that began after the last reset before `n`. */
  ghost predicate Counts(log: seq<HintEvent>, n: nat, k: nat)
    requires n <= |log|
  {
    k < n && log[k].Capture? && exists b: nat :: b < k && BegunAt(log, n, log[k].id, b)
  }

  lemma CountsStep(log: seq<HintEvent>, n: nat, k: nat)
    requires n < |log|
    ensures Counts(log, n + 1, k) <==>
      !log[n].ResetHint? && (Counts(log, n, k) || (k == n && log[n].Capture? && Begun(log, n, log[n].id)))
  {
    if Counts(log, n + 1, k) {
      var b: nat :| b < k && BegunAt(log, n + 1, log[k].id, b);
      assert BegunAt(log, n, log[k].id, b);
    }
    if !log[n].ResetHint? {
      if Counts(log, n, k) {
        var b: nat :| b < k && BegunAt(log, n, log[k].id, b);
        assert BegunAt(log, n + 1, log[k].id, b);
      } else if k == n && log[n].Capture? && Begun(log, n, log[n].id) {
        var b: nat :| BegunAt(log, n, log[n].id, b);
        assert BegunAt(log, n + 1, log[k].id, b);
      }
    }
  }

  /** Cells are numbered by resets: a cell above the current one is empty, and a request holds the
      current cell exactly when no reset came after it began. */
  ghost predicate CellsAgree(h: Hints, log: seq<HintEvent>, n: nat)
    requires n <= |log|
  {
    && (forall id :: id in h.began ==> h.began[id] <= h.current)
    && (forall c :: c in h.cells ==> c <= h.current)
    && (forall id :: id in h.began && h.began[id] == h.current ==> Begun(log, n, id))
    && (forall id, b: nat :: BegunAt(log, n, id, b) ==> id in h.began && h.began[id] == h.current)
  }

  lemma {:induction false} CellsAlwaysAgree(states: seq<Hints>, log: seq<HintEvent>, n: nat)
    requires HintBehavior(states, log) && n <= |log|
    ensures CellsAgree(states[n], log, n)
  {
    if n > 0 {
      CellsAlwaysAgree(states, log, n - 1);
      assert log[n - 1] == log[n - 1];
      forall id | id in states[n].began && states[n].began[id] == states[n].current
        ensures Begun(log, n, id)
      {
        if log[n - 1].Begin? && log[n - 1].id == id {
          assert BegunAt(log, n, id, n - 1);
        } else {
          var b: nat :| BegunAt(log, n - 1, id, b);
          assert BegunAt(log, n, id, b);
        }
      }
      forall id, b: nat | BegunAt(log, n, id, b)
        ensures id in states[n].began && states[n].began[id] == states[n].current
      {
        if b < n - 1 {
          assert BegunAt(log, n - 1, id, b);
        }
      }
    }
  }

  /** `hint` is the greatest deadline over the requests begun since the last reset, and absent without any. */
  ghost predicate IsMaximum(log: seq<HintEvent>, n: nat, hint: Option<int>)
    requires n <= |log|
  {
    && (hint.None? <==> forall k: nat :: !Counts(log, n, k))
    && (hint.Some? ==>
          && (exists k: nat :: Counts(log, n, k) && log[k].deadline == hint.value)
          && (forall k: nat :: Counts(log, n, k) ==> log[k].deadline <= hint.value))
  }

  /** The hint after one more event. */
  ghost function Raised(log: seq<HintEvent>, n: nat, hint: Option<int>): Option<int>
    requires n < |log|
  {
    match log[n]
    case ResetHint => None
    case Begin(_) => hint
    case Capture(id, deadline) =>
      if !Begun(log, n, id) then hint
      else Some(if hint.Some? then Max(hint.value, deadline) else deadline)
  }

  lemma RaisedIsMaximum(log: seq<HintEvent>, n: nat, next: nat, hint: Option<int>)
    requires n < |log| && next == n + 1 && IsMaximum(log, n, hint)
    ensures IsMaximum(log, next, Raised(log, n, hint))
  {
    forall k: nat
      ensures Counts(log, next, k) <==>
        !log[n].ResetHint? && (Counts(log, n, k) || (k == n && log[n].Capture? && Begun(log, n, log[n].id)))
    {
      CountsStep(log, n, k);
    }
    if !log[n].ResetHint? && hint.Some? {
      var k: nat :| Counts(log, n, k) && log[k].deadline == hint.value;
      assert Counts(log, next, k);
    }
    if log[n].Capture? && Begun(log, n, log[n].id) {
      assert Counts(log, next, n);
    }
  }

  lemma HintIsRaised(states: seq<Hints>, log: seq<HintEvent>, n: nat)
    requires HintBehavior(states, log) && n < |log|
    ensures Hint(states[n + 1]) == Raised(log, n, Hint(states[n]))
  {
    CellsAlwaysAgree(states, log, n);
    assert log[n] == log[n];
  }

  /** The code's hint is that maximum, however requests, answers and resets interleave. */
  lemma {:induction false} HintIsMaximum(states: seq<Hints>, log: seq<HintEvent>, n: nat)
    requires HintBehavior(states, log) && n <= |log|
    ensures IsMaximum(log, n, Hint(states[n]))
  {
    if n > 0 {
      HintIsMaximum(states, log, n - 1);
      RaisedIsMaximum(log, n - 1, n, Hint(states[n - 1]));
      HintIsRaised(states, log, n - 1);
    }
  }
}
