/** The IPC client: a ticket counter shared by all clones of a client, and one
    request-reply exchange over a fresh connection. */
module CaClients {
  import opened Base
  import opened Framing
  import opened Protocol
  import opened Admission

  datatype SendError =
    | ConnectFailed
    | CounterExhausted
    | NotEncodable
    | RequestTooLarge
    | WriteFailed
    | ReplyCut
    | ReplyTooLarge
    | ReplyUnreadable

  // ----- what one exchange does, as functions -----

  /** The value left behind by a wrapping `fetch_add(1)`. */
  function Bump(counter: u64): u64 {
    (counter + 1) % TWO_TO_64
  }

  /** The ticket of a caller that saw `counter`; none at the very end. */
  function Ticket(counter: u64): Option<u64> {
    if counter == U64_MAX then None else Some(counter + 1)
  }

  /** The payload a caller intends to send, or why it sends nothing. */
  function Payload(codec: Codec, token: string, counter: u64, request: CaRequest): Result<seq<byte>, SendError> {
    match Ticket(counter)
    case None => Err(CounterExhausted)
    case Some(t) =>
      match codec.encodeRequest(AuthenticatedRequest(token, t, request))
      case None => Err(NotEncodable)
      case Some(bytes) => if SenderAdmits(bytes) then Ok(bytes) else Err(RequestTooLarge)
  }

  /** The bytes a caller intends to put on the wire. */
  function ClientBytes(codec: Codec, token: string, counter: u64, request: CaRequest): seq<byte> {
    match Payload(codec, token, counter, request)
    case Err(_) => []
    case Ok(bytes) => Frame(bytes)
  }

  function ReadReply(codec: Codec, incoming: seq<byte>): Result<CaResponse, SendError> {
    match ReadFrame(incoming)
    case ShortRead => Err(ReplyCut)
    case Oversized(_) => Err(ReplyTooLarge)
    case Got(payload) =>
      match codec.OpenResponse(payload)
      case None => Err(ReplyUnreadable)
      case Some(response) => Ok(response)
  }

  /** What a whole exchange yields over a connection that takes `room` bytes and
      answers with `incoming`. */
  function Exchange(codec: Codec, token: string, counter: u64, request: CaRequest, room: nat, incoming: seq<byte>)
    : Result<CaResponse, SendError>
  {
    var payload := Payload(codec, token, counter, request);
    if payload.Err? then Err(payload.error)
    else if room < |ClientBytes(codec, token, counter, request)| then Err(WriteFailed)
    else ReadReply(codec, incoming)
  }

  /** Whatever part of a client's bytes reaches the server, the server either
      finds nothing authentic in it or finds exactly the client's envelope. */
  lemma ServerSeesTheEnvelopeOrNothing(g: Gate, counter: u64, request: CaRequest, k: nat)
    requires g.codec.Faithful()
    requires k <= |ClientBytes(g.codec, g.token, counter, request)|
    ensures var sent := ClientBytes(g.codec, g.token, counter, request);
            var a := Classify(g, Message(Some(g.uid), sent[..k]));
            a.Authentic? ==>
              && Ticket(counter).Some?
              && a.envelope == AuthenticatedRequest(g.token, Ticket(counter).value, request)
  {
    match Payload(g.codec, g.token, counter, request)
    case Err(_) =>
    case Ok(bytes) =>
      var n := LengthField(bytes);
      var e := AuthenticatedRequest(g.token, Ticket(counter).value, request);
      assert g.codec.OpenRequest(bytes) == Some(e);
      if k < 4 + n {
        CutFrameIsShort(bytes, k);
      } else {
        LateCutIsHarmless(bytes, k);
        if n < |bytes| {
          assert g.codec.OpenRequest(bytes[..n]) == None;
        } else {
          assert bytes[..n] == bytes;
        }
      }
  }

  /** An undisturbed client whose payload fits is authentic to the server. */
  lemma CompleteRequestIsAuthentic(g: Gate, counter: u64, request: CaRequest)
    requires g.codec.Faithful()
    requires Payload(g.codec, g.token, counter, request).Ok?
    requires |Payload(g.codec, g.token, counter, request).value| < TWO_TO_32
    ensures Classify(g, Message(Some(g.uid), ClientBytes(g.codec, g.token, counter, request)))
            == Authentic(AuthenticatedRequest(g.token, counter + 1, request))
  {
    var bytes := Payload(g.codec, g.token, counter, request).value;
    var e := AuthenticatedRequest(g.token, counter + 1, request);
    assert g.codec.OpenRequest(bytes) == Some(e);
    AdmittedFrame(bytes);
    assert bytes[..|bytes|] == bytes;
  }

  /** The server does not limit its replies, the client does: a reply is read
      back as sent, or not at all. */
  lemma ReplyArrivesOrFails(codec: Codec, response: CaResponse)
    requires codec.Faithful()
    ensures var r := ReadReply(codec, Frame(codec.encodeResponse(response)));
            && (r.Ok? ==> r.value == response)
            && (|codec.encodeResponse(response)| <= MAX_MESSAGE_SIZE ==> r.Ok?)
  {
    var bytes := codec.encodeResponse(response);
    var n := LengthField(bytes);
    assert codec.OpenResponse(bytes) == Some(response);
    if !SenderAdmits(bytes) {
      GatesAgree(bytes);
    } else if n < |bytes| {
      AdmittedFrame(bytes);
      assert codec.OpenResponse(bytes[..n]) == None;
    } else {
      AdmittedFrame(bytes);
      assert bytes[..n] == bytes;
    }
  }

  /** When a call succeeds, and with what: the counter has a ticket left, the envelope
      with that ticket encodes within the limit, the connection takes its whole
      frame, and the peer answers with a frame of this reply. */
  ghost predicate Succeeds(codec: Codec, token: string, counter: u64, request: CaRequest, room: nat,
                           incoming: seq<byte>, x: CaResponse) {
    && counter < U64_MAX
    && Fitting(codec.encodeRequest(AuthenticatedRequest(token, counter + 1, request)), room)
    && exists body :: CarriesPayload(incoming, body) && codec.OpenResponse(body) == Some(x)
  }

  predicate Fitting(encoded: Option<seq<byte>>, room: nat) {
    encoded.Some? && LengthField(encoded.value) <= 65_536 && |Frame(encoded.value)| <= room
  }

  lemma ExchangeSucceedsExactly(codec: Codec, token: string, counter: u64, request: CaRequest, room: nat,
                                incoming: seq<byte>, x: CaResponse)
    ensures Exchange(codec, token, counter, request, room, incoming) == Ok(x) <==>
            Succeeds(codec, token, counter, request, room, incoming, x)
  {
    forall body
      ensures CarriesPayload(incoming, body) <==> ReadFrame(incoming) == Got(body)
    {
      GotExactlyFramed(incoming, body);
    }
  }

  // ----- the objects -----

  /** The atomic counter behind all clones of a client. */
  class Counter {
    var value: u64

    constructor ()
      ensures value == 0
    {
      value := 0;
    }

    method FetchAdd() returns (prev: u64)
      modifies this
      ensures prev == old(value) && value == Bump(old(value))
    {
      prev := value;
      value := Bump(value);
    }
  }

  /** A connected socket. `room` is how many bytes the peer takes before the
      connection breaks; `incoming` is what the peer answers. */
  class Socket {
    var sent: seq<byte>
    var room: nat
    const incoming: ByteStream

    constructor (room: nat, incoming: ByteStream)
      ensures sent == [] && this.room == room && this.incoming == incoming
    {
      this.sent := [];
      this.room := room;
      this.incoming := incoming;
    }

    method WriteAll(bytes: seq<byte>) returns (ok: bool)
      modifies this
      ensures ok <==> |bytes| <= old(room)
      ensures sent == old(sent) + (if ok then bytes else bytes[..old(room)])
      ensures room == (if ok then old(room) - |bytes| else 0)
    {
      ok := |bytes| <= room;
      if ok {
        sent := sent + bytes;
        room := room - |bytes|;
      } else {
        sent := sent + bytes[..room];
        room := 0;
      }
    }
  }

  class CaClient {
    const token: string
    const codec: Codec
    const counter: Counter

    constructor (token: string, codec: Codec)
      ensures this.token == token && this.codec == codec
      ensures fresh(counter) && counter.value == 0
    {
      this.token := token;
      this.codec := codec;
      this.counter := new Counter();
    }

    constructor Clone(original: CaClient)
      ensures token == original.token && codec == original.codec && counter == original.counter
    {
      token := original.token;
      codec := original.codec;
      counter := original.counter;
    }

    /** Connects, draws a ticket, sends one frame and reads one frame.
        `connection` is the outcome of the connect call: a failed connect draws
        no ticket, every later failure has already used one up. */
    method SendRequest(connection: Option<Socket>, request: CaRequest) returns (r: Result<CaResponse, SendError>)
      requires connection.Some? ==> connection.value.sent == []
      modifies counter
      modifies if connection.Some? then {connection.value, connection.value.incoming} else {}
      ensures counter.value == if connection.Some? then Bump(old(counter.value)) else old(counter.value)
      ensures connection == None ==> r == Err(ConnectFailed)
      ensures connection.Some? ==>
                var s := connection.value;
                var bytes := ClientBytes(codec, token, old(counter.value), request);
                && s.sent == (if |bytes| <= old(s.room) then bytes else bytes[..old(s.room)])
                && r == Exchange(codec, token, old(counter.value), request, old(s.room), old(s.incoming.Pending()))
                && forall x :: r == Ok(x) <==>
                     Succeeds(codec, token, old(counter.value), request, old(s.room), old(s.incoming.Pending()), x)
      ensures connection.Some? ==> (r == Err(CounterExhausted) <==> old(counter.value) == U64_MAX)
    {
      if connection == None {
        return Err(ConnectFailed);
      }
      var stream := connection.value;
      ghost var room, incoming, start := stream.room, stream.incoming.Pending(), counter.value;
      forall x
        ensures Exchange(codec, token, start, request, room, incoming) == Ok(x) <==>
                Succeeds(codec, token, start, request, room, incoming, x)
      {
        ExchangeSucceedsExactly(codec, token, start, request, room, incoming, x);
      }
      var prev := counter.FetchAdd();
      var ticket := Ticket(prev);
      if ticket == None {
        return Err(CounterExhausted);
      }
      var encoded := codec.encodeRequest(AuthenticatedRequest(token, ticket.value, request));
      if encoded == None {
        return Err(NotEncodable);
      }
      var payload := encoded.value;
      if LengthField(payload) > MAX_MESSAGE_SIZE {
        return Err(RequestTooLarge);
      }
      var wrote := WriteFrame(stream, payload);
      if !wrote {
        return Err(WriteFailed);
      }
      r := Receive(stream.incoming);
    }

    /** Writes the 4-byte length and then the payload; a broken connection cuts
        the frame at whatever byte it cuts it. */
    method WriteFrame(stream: Socket, payload: seq<byte>) returns (ok: bool)
      modifies stream
      ensures ok <==> |Frame(payload)| <= old(stream.room)
      ensures stream.sent == old(stream.sent) +
                             (if ok then Frame(payload) else Frame(payload)[..old(stream.room)])
    {
      var length := BeBytes(LengthField(payload));
      assert forall k: nat :: 4 <= k <= |Frame(payload)| ==>
               Frame(payload)[..k] == length + payload[..k - 4];
      ok := stream.WriteAll(length);
      if ok {
        ok := stream.WriteAll(payload);
      }
    }

    method Receive(incoming: ByteStream) returns (r: Result<CaResponse, SendError>)
      modifies incoming
      ensures r == ReadReply(codec, old(incoming.Pending()))
    {
      var reply := incoming.ReceiveFrame();
      match reply {
        case ShortRead => r := Err(ReplyCut);
        case Oversized(_) => r := Err(ReplyTooLarge);
        case Got(body) =>
          var response := codec.OpenResponse(body);
          r := if response == None then Err(ReplyUnreadable) else Ok(response.value);
      }
    }
  }

  /** Clones draw from one counter: two exchanges through two clones never use
      the same ticket, unless the counter was exhausted in between. */
  method ExchangeThroughClones(original: CaClient, first: Socket, second: Socket, a: CaRequest, b: CaRequest)
    returns (x: Result<CaResponse, SendError>, y: Result<CaResponse, SendError>)
    requires first != second && first.incoming != second.incoming
    requires first.sent == [] && second.sent == []
    modifies original.counter, first, second, first.incoming, second.incoming
    ensures original.counter.value == Bump(Bump(old(original.counter.value)))
    ensures first.sent <= ClientBytes(original.codec, original.token, old(original.counter.value), a)
    ensures second.sent <= ClientBytes(original.codec, original.token, Bump(old(original.counter.value)), b)
    ensures x == Exchange(original.codec, original.token, old(original.counter.value), a,
                          old(first.room), old(first.incoming.Pending()))
    ensures y == Exchange(original.codec, original.token, Bump(old(original.counter.value)), b,
                          old(second.room), old(second.incoming.Pending()))
  {
    var one := new CaClient.Clone(original);
    var two := new CaClient.Clone(original);
    x := one.SendRequest(Some(first), a);
    y := two.SendRequest(Some(second), b);
  }
}
