/** The CA server: serves accepted connections one after the other. */
module CaServers {
  import opened Base
  import opened Framing
  import opened Protocol
  import opened Admission
  import opened Authority
  import opened Ipc

  /** One turn of the accept loop: what the peer will send, in which chunks, and
      the files and clock readings that the turn will see. */
  datatype Accept =
    | AcceptFailed
    | Peer(uid: Option<nat>, chunks: seq<seq<byte>>, world: World, clock: Clock)

  /** A turn that got a connection, and what the server finds in it. */
  datatype Turn = Turn(arrival: Arrival, world: World, clock: Clock)

  ghost function Turns(g: Gate, accepts: seq<Accept>): seq<Turn> {
    if accepts == [] then []
    else TurnOf(g, accepts[0]) + Turns(g, accepts[1..])
  }

  ghost function TurnOf(g: Gate, a: Accept): seq<Turn> {
    match a
    case AcceptFailed => []
    case Peer(uid, chunks, world, clock) => [Turn(Classify(g, Message(uid, Flatten(chunks))), world, clock)]
  }

  lemma TurnsGoOn(g: Gate, done: seq<Turn>, accepts: seq<Accept>, i: nat)
    requires i < |accepts| && done + Turns(g, accepts[i..]) == Turns(g, accepts)
    ensures (done + TurnOf(g, accepts[i])) + Turns(g, accepts[i + 1..]) == Turns(g, accepts)
  {
    assert accepts[i..][1..] == accepts[i + 1..];
  }

  /** The reply to a connection that follows the connections in `past`. */
  function ReplyTo(ca: Ca, past: seq<Arrival>, t: Turn): Option<CaResponse> {
    Answer(Judge(LastCounter(past), t.arrival), t.arrival,
           if t.arrival.Authentic? then Dispatch(ca, t.world, t.clock, t.arrival.envelope.request) else KeyFound(None))
  }

  /** What each peer is told. Nothing, if it was dropped; that its message does not
      decode; that it failed to authenticate, for a bad token and for a counter that
      is not above the last; else the reply that its request expects. */
  predicate RightReply(a: Arrival, v: Verdict, reply: Option<CaResponse>) {
    match a
    case Dropped => reply == None
    case Undecodable => reply == Some(Error("Invalid request format"))
    case BadToken => reply == Some(Error("authentication failed"))
    case Authentic(e) =>
      if v == Accepted then reply.Some? && Fits(e.request, reply.value)
      else reply == Some(Error("authentication failed"))
  }

  lemma RepliesAreRight(ca: Ca, past: seq<Arrival>, t: Turn)
    ensures RightReply(t.arrival, Judge(LastCounter(past), t.arrival), ReplyTo(ca, past, t))
  {
    if t.arrival.Authentic? {
      DispatchIsRight(ca, t.world, t.clock, t.arrival.envelope.request);
    }
  }

  /** Having started with `past`, the server took `turns` and answered each by
      what all earlier arrivals determine. */
  ghost predicate Answered(ca: Ca, past: seq<Arrival>, turns: seq<Turn>, now: seq<Arrival>,
                           replies: seq<Option<CaResponse>>) {
    && |replies| == |turns| && |now| == |past| + |turns| && past <= now
    && forall k :: 0 <= k < |turns| ==> AnsweredTurn(ca, now, |past| + k, turns[k], replies[k])
  }

  predicate AnsweredTurn(ca: Ca, now: seq<Arrival>, at: nat, t: Turn, reply: Option<CaResponse>) {
    && at < |now| && now[at] == t.arrival
    && reply == ReplyTo(ca, now[..at], t)
  }

  lemma AnsweredOneMore(ca: Ca, past: seq<Arrival>, turns: seq<Turn>, now: seq<Arrival>,
                        replies: seq<Option<CaResponse>>, t: Turn)
    requires Answered(ca, past, turns, now, replies)
    ensures Answered(ca, past, turns + [t], now + [t.arrival], replies + [ReplyTo(ca, now, t)])
  {
    var now' := now + [t.arrival];
    forall k | 0 <= k <= |turns|
      ensures AnsweredTurn(ca, now', |past| + k, (turns + [t])[k], (replies + [ReplyTo(ca, now, t)])[k])
    {
      if k < |turns| {
        assert AnsweredTurn(ca, now, |past| + k, turns[k], replies[k]);
        assert now'[..|past| + k] == now[..|past| + k];
      } else {
        assert now'[..|now|] == now;
      }
    }
  }

  /** So every reply is right for the verdict at its place in the order. */
  lemma AnsweredIsRight(ca: Ca, past: seq<Arrival>, turns: seq<Turn>, now: seq<Arrival>,
                        replies: seq<Option<CaResponse>>, k: nat)
    requires Answered(ca, past, turns, now, replies) && k < |turns|
    ensures RightReply(turns[k].arrival, VerdictAt(now, |past| + k), replies[k])
  {
    assert AnsweredTurn(ca, now, |past| + k, turns[k], replies[k]);
    RepliesAreRight(ca, now[..|past| + k], turns[k]);
  }

  class CaServer {
    const gate: Gate
    const ca: Ca
    var lastCounter: u64
    ghost var arrivals: seq<Arrival>     // every connection served so far

    /** The replay counter is the running maximum of everything served. */
    ghost predicate Valid()
      reads this
    {
      lastCounter == LastCounter(arrivals)
    }

    constructor (gate: Gate, ca: Ca)
      ensures Valid() && arrivals == []
      ensures this.gate == gate && this.ca == ca
    {
      this.gate, this.ca := gate, ca;
      lastCounter := 0;
      arrivals := [];
    }

    /** Serves one connection; `reply` is what is sent back, if anything. The
        counter moves before the request is carried out, so a request that fails
        has used its counter up. */
    method Serve(peerUid: Option<nat>, incoming: ByteStream, world: World, clock: Clock)
      returns (reply: Option<CaResponse>)
      requires Valid()
      modifies this, incoming
      ensures Valid()
      ensures arrivals == old(arrivals) + [Classify(gate, Message(peerUid, old(incoming.Pending())))]
      ensures reply == ReplyTo(ca, old(arrivals), Turn(arrivals[|old(arrivals)|], world, clock))
      ensures lastCounter != old(lastCounter) <==> VerdictAt(arrivals, |old(arrivals)|) == Accepted
    {
      ghost var a := Classify(gate, Message(peerUid, incoming.Pending()));
      OneMoreJudged(arrivals, a);
      arrivals := arrivals + [a];
      if peerUid != Some(gate.uid) {
        return None;
      }
      var frame := incoming.ReceiveFrame();
      if !frame.Got? {
        return None;
      }
      var text := gate.codec.utf8(frame.payload);
      if text == None {
        return None;
      }
      var parsed := gate.codec.parseRequest(text.value);
      if parsed == None {
        return Some(Error("Invalid request format"));
      }
      var envelope := parsed.value;
      if envelope.token != gate.token {
        return Some(Error("authentication failed"));
      }
      if envelope.counter <= lastCounter {
        return Some(Error("authentication failed"));
      }
      lastCounter := envelope.counter;
      reply := CarryOut(world, clock, envelope.request);
    }

    /** What an accepted request is answered. */
    method CarryOut(world: World, clock: Clock, request: CaRequest) returns (reply: Option<CaResponse>)
      ensures reply == Some(Dispatch(ca, world, clock, request))
    {
      var response := HandleRequest(ca, world, clock, request);
      reply := Some(response);
    }

    /** The accept loop over any finite number of turns. Failed accepts leave no
        trace, every connection is answered in its turn. */
    method Run(accepts: seq<Accept>) returns (replies: seq<Option<CaResponse>>)
      requires Valid()
      modifies this
      ensures Valid()
      ensures Answered(ca, old(arrivals), Turns(gate, accepts), arrivals, replies)
    {
      replies := [];
      ghost var done: seq<Turn> := [];
      ghost var start := arrivals;
      for i := 0 to |accepts|
        invariant Valid()
        invariant done + Turns(gate, accepts[i..]) == Turns(gate, accepts)
        invariant Answered(ca, start, done, arrivals, replies)
      {
        TurnsGoOn(gate, done, accepts, i);
        match accepts[i] {
          case AcceptFailed =>
            assert done + [] == done;
          case Peer(uid, chunks, world, clock) =>
            var stream := new ByteStream(chunks);
            ghost var past, turn := arrivals, TurnOf(gate, accepts[i])[0];
            var reply := Serve(uid, stream, world, clock);
            assert arrivals == past + [turn.arrival] && arrivals[|past|] == turn.arrival;
            AnsweredOneMore(ca, start, done, past, replies, turn);
            replies := replies + [reply];
            done := done + [turn];
        }
      }
    }
  }
}
