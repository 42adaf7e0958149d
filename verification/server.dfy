/** The server as it runs: the two module-level variables become the fields of a
    `SignalingServer`, and each event handler a method that updates them in place
    and returns the sends it makes, in order. */
module Server {
  import opened Messages
  import opened Registry
  import opened Signaling

  /** `clients.forEach((client, id) => { if (id !== skip) client.send(m) })`: one
      send per registered id other than `skip`, in insertion order. */
  method SendEach(recipients: seq<Id>, skip: Option<Id>, m: Msg) returns (out: seq<Envelope>)
    ensures out == FanOut(recipients, skip, m)
  {
    out := [];
    var i := 0;
    while i < |recipients|
      invariant 0 <= i <= |recipients|
      invariant out == FanOut(recipients[..i], skip, m)
    {
      var id := recipients[i];
      assert recipients[..i + 1][..i] == recipients[..i];
      if skip != Some(id) {
        out := out + [Envelope(id, m)];
      }
      i := i + 1;
    }
    assert recipients[..i] == recipients;
  }

  class SignalingServer {
    /** The keys of the `clients` map, in insertion order. */
    var clients: seq<Id>
    /** `broadcasterId`; `None` is `null`. */
    var broadcasterId: Option<Id>

    function Snapshot(): State
      reads this
    {
      State(clients, broadcasterId)
    }

    predicate Valid()
      reads this
    {
      Invariant(Snapshot())
    }

    /** Start-up: an empty map and no broadcaster. */
    constructor ()
      ensures Valid() && Snapshot() == Initial
    {
      clients := [];
      broadcasterId := None;
    }

    /** `wss.on("connection")` with `id` the UUID it drew. */
    method OnConnection(id: Id) returns (out: seq<Envelope>)
      requires Valid() && id !in clients
      modifies this
      ensures Valid()
      ensures Outcome(Snapshot(), out) == Connect(old(Snapshot()), id)
    {
      ghost var before := Snapshot();
      clients := clients + [id];
      out := [Envelope(id, IdMsg(id))];
      if broadcasterId.Some? {
        out := out + [Envelope(id, BroadcasterStarted(broadcasterId.value))];
      }
      StepPreservesInvariant(before, Connected(id));
    }

    /** `ws.on("message")` for the connection `sender`, after `JSON.parse`. */
    method OnMessage(sender: Id, d: Data) returns (out: seq<Envelope>)
      requires Valid() && sender in clients
      modifies this
      ensures Valid()
      ensures Outcome(Snapshot(), out) == Receive(old(Snapshot()), sender, d)
    {
      ghost var before := Snapshot();
      out := [];
      if d.kind == "start_broadcast" {
        if broadcasterId.None? {
          broadcasterId := Some(sender);
          out := SendEach(clients, Some(sender), BroadcasterStarted(sender));
        } else {
          out := [Envelope(sender, Error(AlreadyExists))];
        }
      } else if d.kind == "stop_broadcast" {
        if broadcasterId == Some(sender) {
          broadcasterId := None;
          out := SendEach(clients, None, BroadcasterEnded);
        }
      } else if d.kind == "offer" || d.kind == "answer" || d.kind == "candidate" {
        if d.targetId.Some? && d.targetId.value in clients {
          out := [Envelope(d.targetId.value, Relay(d.kind, d.sdp, d.candidate, sender))];
        }
      }
      StepPreservesInvariant(before, Received(sender, d));
    }

    /** `ws.on("close")` for the connection `id`. */
    method OnClose(id: Id) returns (out: seq<Envelope>)
      requires Valid()
      modifies this
      ensures Valid()
      ensures Outcome(Snapshot(), out) == Close(old(Snapshot()), id)
    {
      ghost var before := Snapshot();
      clients := Without(clients, id);
      out := [];
      if broadcasterId == Some(id) {
        broadcasterId := None;
        out := SendEach(clients, None, BroadcasterEnded);
      }
      StepPreservesInvariant(before, Closed(id));
    }
  }
}
