/** The signalling state machine of the WebSocket server as pure functions: the
    shared state (`clients` and the single `broadcasterId` slot), one function per
    event handler returning the new state and the outbox of sends it performs, and
    the properties each handler keeps. */
module Signaling {
  import opened Messages
  import opened Registry

  /** The module-level state: the keys of `clients` in insertion order, and
      `broadcasterId`, where `None` stands for `null`. */
  datatype State = State(clients: seq<Id>, broadcasterId: Option<Id>)

  /** What one handler invocation does: the state it leaves and the sends it makes, in order. */
  datatype Outcome = Outcome(next: State, out: seq<Envelope>)

  /** The state when the server starts: no clients, no broadcaster. */
  const Initial := State([], None)

  /** The text of the error sent to a second would-be broadcaster. */
  const AlreadyExists := "A broadcaster already exists."

  /** Every id is registered once, and the broadcaster slot is empty or holds a
      connected client. */
  predicate Invariant(s: State)
  {
    Distinct(s.clients) && (s.broadcasterId.Some? ==> s.broadcasterId.value in s.clients)
  }

  /** The connection handler: register the fresh id, tell the client its id, and,
      when a broadcaster exists, tell the new client (alone) who it is. */
  function Connect(s: State, id: Id): Outcome
    requires id !in s.clients
  {
    var greeting := [Envelope(id, IdMsg(id))];
    var announce := if s.broadcasterId.Some? then [Envelope(id, BroadcasterStarted(s.broadcasterId.value))] else [];
    Outcome(State(s.clients + [id], s.broadcasterId), greeting + announce)
  }

  /** `start_broadcast`: an empty slot is claimed by the sender and announced to
      every other client; a taken slot yields an error to the sender alone. */
  function StartBroadcast(s: State, sender: Id): Outcome
  {
    if s.broadcasterId.None? then
      Outcome(State(s.clients, Some(sender)), FanOut(s.clients, Some(sender), BroadcasterStarted(sender)))
    else
      Outcome(s, [Envelope(sender, Error(AlreadyExists))])
  }

  /** `stop_broadcast`: only the current broadcaster can empty the slot, and then
      every client, the sender included, is told the broadcast ended. */
  function StopBroadcast(s: State, sender: Id): Outcome
  {
    if s.broadcasterId == Some(sender) then
      Outcome(State(s.clients, None), FanOut(s.clients, None, BroadcasterEnded))
    else
      Outcome(s, [])
  }

  /** `offer`, `answer` and `candidate`: forwarded to the target when it is
      registered, dropped otherwise. */
  function Forward(s: State, sender: Id, d: Data): Outcome
  {
    if d.targetId.Some? && d.targetId.value in s.clients then
      Outcome(s, [Envelope(d.targetId.value, Relay(d.kind, d.sdp, d.candidate, sender))])
    else
      Outcome(s, [])
  }

  predicate IsRelayKind(kind: string)
  {
    kind == "offer" || kind == "answer" || kind == "candidate"
  }

  /** The message handler: a switch on the `type` field with no default branch. */
  function Receive(s: State, sender: Id, d: Data): Outcome
  {
    if d.kind == "start_broadcast" then StartBroadcast(s, sender)
    else if d.kind == "stop_broadcast" then StopBroadcast(s, sender)
    else if IsRelayKind(d.kind) then Forward(s, sender, d)
    else Outcome(s, [])
  }

  /** The close handler: delete the id; if it held the slot, empty the slot and
      tell every remaining client the broadcast ended. */
  function Close(s: State, id: Id): Outcome
  {
    var rest := Without(s.clients, id);
    if s.broadcasterId == Some(id) then
      Outcome(State(rest, None), FanOut(rest, None, BroadcasterEnded))
    else
      Outcome(State(rest, s.broadcasterId), [])
  }

  /** The events that drive the server, in the order Node's event loop runs them. */
  datatype Event = Connected(id: Id) | Received(sender: Id, data: Data) | Closed(id: Id)

  /** What the environment guarantees of an event: a new connection gets an id not
      in use (a random UUID), and a socket delivers no message after it closed. */
  predicate Admissible(s: State, e: Event)
  {
    match e
    case Connected(id) => id !in s.clients
    case Received(sender, _) => sender in s.clients
    case Closed(_) => true
  }

  function Step(s: State, e: Event): Outcome
    requires Admissible(s, e)
  {
    match e
    case Connected(id) => Connect(s, id)
    case Received(sender, d) => Receive(s, sender, d)
    case Closed(id) => Close(s, id)
  }

  // ---------------------------------------------------------------------------
  // What each handler does, stated per recipient.

  /** Connecting appends the id to the registry and leaves the slot alone; the new
      client first receives its id and then, only if a broadcaster exists,
      `broadcaster_started` naming it; no other client receives anything. */
  lemma ConnectSpec(s: State, id: Id)
    requires id !in s.clients
    ensures Connect(s, id).next == State(s.clients + [id], s.broadcasterId)
    ensures Inbox(Connect(s, id).out, id) ==
              [IdMsg(id)] + (if s.broadcasterId.Some? then [BroadcasterStarted(s.broadcasterId.value)] else [])
    ensures forall x :: x != id ==> Inbox(Connect(s, id).out, x) == []
  {
    var greeting := [Envelope(id, IdMsg(id))];
    var announce := if s.broadcasterId.Some? then [Envelope(id, BroadcasterStarted(s.broadcasterId.value))] else [];
    assert Inbox(greeting, id) == [IdMsg(id)] by {
      assert greeting[..0] == [];
    }
    forall x
      ensures Inbox(Connect(s, id).out, x) == Inbox(greeting, x) + Inbox(announce, x)
    {
      InboxAppend(greeting, announce, x);
    }
    if s.broadcasterId.Some? {
      assert announce[..0] == [];
    }
  }

  /** With the slot empty, the sender becomes the broadcaster and each other
      registered client receives exactly one `broadcaster_started` naming it, in
      registry order; the sender and unknown ids receive nothing. With the slot
      taken (by anyone, the sender included) nothing changes and the sender alone
      receives one error. */
  lemma StartBroadcastSpec(s: State, sender: Id)
    requires Distinct(s.clients)
    ensures var r := StartBroadcast(s, sender);
      if s.broadcasterId.None? then
        r.next == State(s.clients, Some(sender)) &&
        Addressees(r.out) == Without(s.clients, sender) &&
        forall x :: Inbox(r.out, x) == if x in s.clients && x != sender then [BroadcasterStarted(sender)] else []
      else
        r.next == s && r.out == [Envelope(sender, Error(AlreadyExists))]
  {
    if s.broadcasterId.None? {
      FanOutOrder(s.clients, Some(sender), BroadcasterStarted(sender));
      forall x
        ensures Inbox(StartBroadcast(s, sender).out, x) == if x in s.clients && x != sender then [BroadcasterStarted(sender)] else []
      {
        FanOutInbox(s.clients, Some(sender), BroadcasterStarted(sender), x);
      }
    }
  }

  /** The broadcaster stopping empties the slot and every registered client, the
      sender included, receives exactly one `broadcaster_ended`, in registry order.
      Any other sender changes nothing and sends nothing. */
  lemma StopBroadcastSpec(s: State, sender: Id)
    requires Distinct(s.clients)
    ensures var r := StopBroadcast(s, sender);
      if s.broadcasterId == Some(sender) then
        r.next == State(s.clients, None) &&
        Addressees(r.out) == s.clients &&
        forall x :: Inbox(r.out, x) == if x in s.clients then [BroadcasterEnded] else []
      else
        r.next == s && r.out == []
  {
    if s.broadcasterId == Some(sender) {
      FanOutOrder(s.clients, None, BroadcasterEnded);
      forall x
        ensures Inbox(StopBroadcast(s, sender).out, x) == if x in s.clients then [BroadcasterEnded] else []
      {
        FanOutInbox(s.clients, None, BroadcasterEnded, x);
      }
    }
  }

  /** Relaying never changes the state. A registered target receives exactly one
      message with the same type, the payloads unchanged and the sender's id; no
      one else receives anything, and an unknown or missing target means no send. */
  lemma ForwardSpec(s: State, sender: Id, d: Data)
    ensures Forward(s, sender, d).next == s
    ensures forall x :: Inbox(Forward(s, sender, d).out, x) ==
              if d.targetId == Some(x) && x in s.clients then [Relay(d.kind, d.sdp, d.candidate, sender)] else []
    ensures (d.targetId.None? || d.targetId.value !in s.clients) ==> Forward(s, sender, d).out == []
  {
  }

  /** A message never changes the registry, and one whose type is not handled
      changes nothing and sends nothing. */
  lemma ReceiveSpec(s: State, sender: Id, d: Data)
    ensures Receive(s, sender, d).next.clients == s.clients
    ensures d.kind != "start_broadcast" && d.kind != "stop_broadcast" && !IsRelayKind(d.kind) ==>
              Receive(s, sender, d) == Outcome(s, [])
  {
  }

  /** Closing always deletes the id. If it held the slot, the slot empties and
      each remaining client receives exactly one `broadcaster_ended`, in registry
      order, while the closed client receives nothing; otherwise the slot is kept
      and nothing is sent. */
  lemma CloseSpec(s: State, id: Id)
    requires Distinct(s.clients)
    ensures var r := Close(s, id);
      r.next.clients == Without(s.clients, id) && id !in r.next.clients &&
      if s.broadcasterId == Some(id) then
        r.next.broadcasterId == None &&
        Addressees(r.out) == r.next.clients &&
        Inbox(r.out, id) == [] &&
        forall x :: Inbox(r.out, x) == if x in r.next.clients then [BroadcasterEnded] else []
      else
        r.next.broadcasterId == s.broadcasterId && r.out == []
  {
    var rest := Without(s.clients, id);
    if s.broadcasterId == Some(id) {
      FanOutOrder(rest, None, BroadcasterEnded);
      forall x
        ensures Inbox(Close(s, id).out, x) == if x in rest then [BroadcasterEnded] else []
      {
        FanOutInbox(rest, None, BroadcasterEnded, x);
      }
    }
  }

  /** A close for an id that is not connected is a no-op, so a repeated close
      of the same connection changes nothing and sends nothing. */
  lemma CloseIdempotent(s: State, id: Id)
    requires Invariant(s)
    ensures id !in s.clients ==> Close(s, id) == Outcome(s, [])
    ensures var once := Close(s, id).next; Close(once, id) == Outcome(once, [])
  {
  }

  // ---------------------------------------------------------------------------
  // Properties of every step.

  /** Every handler keeps ids unique and the broadcaster slot empty or pointing at
      a connected client. */
  lemma StepPreservesInvariant(s: State, e: Event)
    requires Invariant(s) && Admissible(s, e)
    ensures Invariant(Step(s, e).next)
  {
  }

  /** Nothing is ever sent to a connection that is not registered once the handler
      is done: in particular no message goes to a client that has just closed. */
  lemma StepSendsOnlyToConnected(s: State, e: Event)
    requires Invariant(s) && Admissible(s, e)
    ensures var r := Step(s, e); forall k :: 0 <= k < |r.out| ==> r.out[k].to in r.next.clients
  {
  }

  /** The broadcaster slot changes only when an empty slot is claimed by a
      connected sender of `start_broadcast`, or when its holder sends
      `stop_broadcast` or closes; in both of those cases it becomes empty. */
  lemma SlotTransitions(s: State, e: Event)
    requires Admissible(s, e)
    ensures var b := Step(s, e).next.broadcasterId;
      b != s.broadcasterId ==>
        (s.broadcasterId.None? && e.Received? && e.data.kind == "start_broadcast" &&
         b == Some(e.sender) && e.sender in s.clients) ||
        (s.broadcasterId.Some? && b.None? &&
         ((e.Received? && e.data.kind == "stop_broadcast" && e.sender == s.broadcasterId.value) ||
          (e.Closed? && e.id == s.broadcasterId.value)))
  {
  }
}
