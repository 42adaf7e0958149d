/** The vocabulary of the signalling server: connection identities, the fields of
    a parsed inbound message that the handlers read, and the outbound messages
    the server sends, each addressed to one connection. */
module Messages {

  datatype Option<T> = None | Some(value: T)

  /** A connection identity: the text of the UUID drawn when the socket connected. */
  type Id = string

  /** An SDP description or ICE candidate, kept as the client's JSON value;
      the server copies it into the relayed message without looking inside. */
  type Blob = string

  /** What the handler reads of `JSON.parse(msg)`: the `type` field and, for the
      relayed kinds, `targetId`, `sdp` and `candidate`. A field the client left
      out (or a `targetId` that is not a string, which no map key can equal)
      is `None`. */
  datatype Data = Data(kind: string, targetId: Option<Id>, sdp: Option<Blob>, candidate: Option<Blob>)

  /** The outbound messages, one constructor per `type` the server writes. */
  datatype Msg =
    | IdMsg(id: Id)                           // {type: "id", id}
    | BroadcasterStarted(broadcasterId: Id)   // {type: "broadcaster_started", broadcasterId}
    | BroadcasterEnded                        // {type: "broadcaster_ended"}
    | Error(message: string)                  // {type: "error", message}
    | Relay(kind: string, sdp: Option<Blob>, candidate: Option<Blob>, senderId: Id)
                                              // {type: kind, sdp, candidate, senderId}

  /** One `send` on the socket of connection `to`. */
  datatype Envelope = Envelope(to: Id, msg: Msg)

  /** The messages of an outbox that go to connection `id`, in sending order. */
  function Inbox(out: seq<Envelope>, id: Id): seq<Msg>
  {
    if out == [] then []
    else
      var last := out[|out| - 1];
      Inbox(out[..|out| - 1], id) + (if last.to == id then [last.msg] else [])
  }

  /** The connections an outbox writes to, one entry per send, in sending order. */
  function Addressees(out: seq<Envelope>): seq<Id>
  {
    if out == [] then [] else Addressees(out[..|out| - 1]) + [out[|out| - 1].to]
  }

  /** What a connection receives from two outboxes sent one after the other is
      what it receives from the first followed by what it receives from the second. */
  lemma {:induction false} InboxAppend(a: seq<Envelope>, b: seq<Envelope>, id: Id)
    ensures Inbox(a + b, id) == Inbox(a, id) + Inbox(b, id)
    decreases |b|
  {
    if b == [] {
      assert a + b == a;
    } else {
      var b' := b[..|b| - 1];
      assert (a + b)[..|a + b| - 1] == a + b';
      InboxAppend(a, b', id);
    }
  }
}
