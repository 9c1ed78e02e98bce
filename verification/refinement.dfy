/** The objects do what the step system says: an exchange of the client is a run of
    its events, and a turn of the server is its next step. */
module Refinement {
  import opened Base
  import opened Framing
  import opened Protocol
  import opened Admission
  import opened CaClients
  import opened Authority
  import opened CaServers

  /** The events of one call over a connection that takes `room` bytes. */
  function CallEvents(g: Gate, s: Ipc.State, owner: nat, request: CaRequest, room: nat): seq<Ipc.Event> {
    var i, bytes := |s.links|, ClientBytes(g.codec, g.token, s.counter, request);
    [Ipc.Connect(owner, request)] +
    ([Ipc.Draw(i)] +
     if Ticket(s.counter) == None then []
     else if |bytes| <= room then [Ipc.Write(i)]
     else [Ipc.Break(i, room)])
  }

  /** What the step system makes of the call: one more link, which carries what
      the connection took. */
  lemma CallIsARun(g: Gate, s: Ipc.State, owner: nat, request: CaRequest, room: nat)
    ensures var es := CallEvents(g, s, owner, request, room);
            var bytes := ClientBytes(g.codec, g.token, s.counter, request);
            var sent := if |bytes| <= room then bytes else bytes[..room];
            && Ipc.Possible(g, s, es)
            && Ipc.After(g, s, es) ==
               s.(counter := Bump(s.counter), drawn := s.drawn + 1,
                  links := s.links + [Ipc.Link(Ipc.Client(owner, request), Ticket(s.counter), Some(sent), None)])
  {
    var i, bytes := |s.links|, ClientBytes(g.codec, g.token, s.counter, request);
    var s1 := Ipc.Apply(g, s, Ipc.Connect(owner, request));
    var s2 := Ipc.Apply(g, s1, Ipc.Draw(i));
    var last := if Ticket(s.counter) == None then []
                else if |bytes| <= room then [Ipc.Write(i)] else [Ipc.Break(i, room)];
    assert s1.links[i] == Ipc.Link(Ipc.Client(owner, request), None, None, None);
    if last != [] {
      assert Ipc.LinkBytes(g, s2.links[i]) == bytes;
      var s3 := Ipc.Apply(g, s2, last[0]);
      assert Ipc.After(g, s3, []) == s3;
      Ipc.Prepend(g, s2, last[0], s3, []);
      assert last == [last[0]] + [];
    }
    Ipc.Prepend(g, s1, Ipc.Draw(i), s2, last);
    Ipc.Prepend(g, s, Ipc.Connect(owner, request), s1, [Ipc.Draw(i)] + last);
  }

  /** A call of the client object, beside the run that it is. */
  method CallAsRun(client: CaClient, connection: Socket, request: CaRequest, g: Gate, owner: nat, ghost s: Ipc.State)
    returns (r: Result<CaResponse, SendError>, ghost s': Ipc.State)
    requires client.codec == g.codec && client.token == g.token
    requires client.counter.value == s.counter && connection.sent == []
    modifies client.counter, connection, connection.incoming
    ensures var es := CallEvents(g, s, owner, request, old(connection.room));
            Ipc.Possible(g, s, es) && s' == Ipc.After(g, s, es)
    ensures client.counter.value == s'.counter
    ensures |s'.links| == |s.links| + 1 && s'.links[..|s.links|] == s.links
    ensures s'.links[|s.links|] ==
            Ipc.Link(Ipc.Client(owner, request), Ticket(s.counter), Some(connection.sent), None)
  {
    ghost var room := connection.room;
    CallIsARun(g, s, owner, request, room);
    s' := Ipc.After(g, s, CallEvents(g, s, owner, request, room));
    r := client.SendRequest(Some(connection), request);
  }

  /** What an accepted request is answered, for the step system. */
  function Dispatched(ca: Ca, world: World, clock: Clock, a: Arrival): CaResponse {
    if a.Authentic? then Dispatch(ca, world, clock, a.envelope.request) else KeyFound(None)
  }

  /** A turn of the server object, beside the step that it is. */
  method TurnAsStep(server: CaServer, incoming: ByteStream, world: World, clock: Clock, peerUid: Option<nat>,
                    ghost s: Ipc.State)
    returns (reply: Option<CaResponse>, ghost s': Ipc.State)
    requires server.Valid() && server.lastCounter == s.lastCounter
    requires s.served < |s.links| && s.links[s.served].stream.Some?
    requires Ipc.ToMessage(server.gate, s.links[s.served]) == Message(peerUid, incoming.Pending())
    modifies server, incoming
    ensures var dispatched := Dispatched(server.ca, world, clock, Ipc.ArrivalOf(server.gate, s.links[s.served]));
            && Ipc.Enabled(server.gate, s, Ipc.Serve(dispatched))
            && s' == Ipc.Apply(server.gate, s, Ipc.Serve(dispatched))
    ensures server.Valid() && server.lastCounter == s'.lastCounter
    ensures s'.links[s.served].reply == Some(Ipc.AnswerBytes(server.gate.codec, reply))
  {
    ghost var a := Ipc.ArrivalOf(server.gate, s.links[s.served]);
    ghost var before := server.arrivals;
    s' := Ipc.Apply(server.gate, s, Ipc.Serve(Dispatched(server.ca, world, clock, a)));
    reply := server.Serve(peerUid, incoming, world, clock);
    assert server.arrivals[..|server.arrivals| - 1] == before;
  }
}
