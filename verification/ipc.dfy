/** The socket between many request tasks and one CA server, as a step system.
    Tasks connect, draw tickets and write at any moment, intruders connect and
    send what they can; the server serves connections one at a time in the order
    in which they connected. */
module Ipc {
  import opened Base
  import opened Framing
  import opened Protocol
  import opened Admission
  import opened CaClients

  datatype Origin =
    | Client(owner: nat, request: CaRequest)
    | Foreign(peerUid: Option<nat>)

  /** One connection. `stream` is everything the server will read from it, known
      once the peer has finished or gone; `reply` is what the server answered. */
  datatype Link = Link(origin: Origin, ticket: Option<u64>, stream: Option<seq<byte>>, reply: Option<seq<byte>>)

  /** `links` is in connect order, the first `served` of them are done. `drawn`
      only counts the draws, for use in statements. */
  datatype State = State(counter: u64, drawn: nat, links: seq<Link>, served: nat, lastCounter: u64)

  const INITIAL := State(0, 0, [], 0, 0)

  datatype Event =
    | Connect(owner: nat, request: CaRequest)
    | Intrude(peerUid: Option<nat>)              // another user, or a process without the token
    | Inject(link: nat, stream: seq<byte>)       // all that the intruder sends
    | Draw(link: nat)
    | Write(link: nat)
    | Break(link: nat, kept: nat)                // the sender ends after writing `kept` bytes
    | Serve(dispatched: CaResponse)              // what an accepted request would be answered

  function LinkBytes(g: Gate, l: Link): seq<byte> {
    if l.origin.Client? && l.ticket.Some? && 0 < l.ticket.value
    then ClientBytes(g.codec, g.token, l.ticket.value - 1, l.origin.request)
    else []
  }

  function ToMessage(g: Gate, l: Link): Message {
    var uid := if l.origin.Client? then Some(g.uid) else l.origin.peerUid;
    Message(uid, if l.stream.Some? then l.stream.value else [])
  }

  function ArrivalOf(g: Gate, l: Link): Arrival {
    Classify(g, ToMessage(g, l))
  }

  function Arrivals(g: Gate, links: seq<Link>): (r: seq<Arrival>)
    ensures |r| == |links|
    ensures forall i :: 0 <= i < |links| ==> r[i] == ArrivalOf(g, links[i])
  {
    seq(|links|, i requires 0 <= i < |links| => ArrivalOf(g, links[i]))
  }

  /** What the server sends back; nothing when it drops the connection. */
  function Answer(v: Verdict, a: Arrival, dispatched: CaResponse): Option<CaResponse> {
    match v
    case Ignored => None
    case Refused => Some(Error(if a.BadToken? then "authentication failed" else "Invalid request format"))
    case Stale => Some(Error("authentication failed"))
    case Accepted => Some(dispatched)
  }

  function AnswerBytes(codec: Codec, answer: Option<CaResponse>): seq<byte> {
    if answer == None then [] else Frame(codec.encodeResponse(answer.value))
  }

  /** A request task put this envelope on the link. */
  predicate Sends(g: Gate, l: Link, e: AuthenticatedRequest) {
    l.origin.Client? && ArrivalOf(g, l) == Authentic(e)
  }

  ghost predicate Sent(g: Gate, links: seq<Link>, e: AuthenticatedRequest) {
    exists k :: 0 <= k < |links| && Sends(g, links[k], e)
  }

  /** What an intruder under the server's own UID can send. It may copy what
      request tasks have put on the wire, but frames nothing else with the token. */
  ghost predicate Overheard(g: Gate, links: seq<Link>, stream: seq<byte>) {
    forall e, payload :: CarriesEnvelope(g.codec, stream, e, payload) && e.token == g.token ==> Sent(g, links, e)
  }

  predicate Open(s: State, i: nat) {
    i < |s.links| && s.links[i].origin.Client? && s.links[i].stream == None
  }

  predicate Silent(s: State, i: nat) {
    i < |s.links| && s.links[i].origin.Foreign? && s.links[i].stream == None
  }

  ghost predicate Enabled(g: Gate, s: State, e: Event) {
    match e
    case Connect(_, _) => true
    case Intrude(_) => true
    case Inject(i, stream) =>
      Silent(s, i) && (s.links[i].origin.peerUid != Some(g.uid) || Overheard(g, s.links, stream))
    case Draw(i) => Open(s, i) && s.links[i].ticket == None
    case Write(i) => Open(s, i) && s.links[i].ticket.Some?
    case Break(i, kept) => Open(s, i) && kept <= |LinkBytes(g, s.links[i])|
    case Serve(_) => s.served < |s.links| && s.links[s.served].stream.Some?
  }

  ghost function Apply(g: Gate, s: State, e: Event): State
    requires Enabled(g, s, e)
  {
    match e
    case Connect(owner, request) =>
      s.(links := s.links + [Link(Client(owner, request), None, None, None)])
    case Intrude(uid) =>
      s.(links := s.links + [Link(Foreign(uid), None, None, None)])
    case Inject(i, stream) =>
      s.(links := s.links[i := s.links[i].(stream := Some(stream))])
    case Draw(i) =>
      var l := s.links[i];
      var l' := match Ticket(s.counter)
                case None => l.(stream := Some([]))
                case Some(t) => l.(ticket := Some(t));
      s.(counter := Bump(s.counter), drawn := s.drawn + 1, links := s.links[i := l'])
    case Write(i) =>
      var l := s.links[i];
      s.(links := s.links[i := l.(stream := Some(LinkBytes(g, l)))])
    case Break(i, kept) =>
      var l := s.links[i];
      s.(links := s.links[i := l.(stream := Some(LinkBytes(g, l)[..kept]))])
    case Serve(dispatched) =>
      var l := s.links[s.served];
      var a := ArrivalOf(g, l);
      var v := Judge(s.lastCounter, a);
      s.(links := s.links[s.served := l.(reply := Some(AnswerBytes(g.codec, Answer(v, a, dispatched))))],
         served := s.served + 1,
         lastCounter := Advance(s.lastCounter, a))
  }

  /** `es` can happen from `s`, one event after the other. */
  ghost predicate Possible(g: Gate, s: State, es: seq<Event>)
    decreases es
  {
    es == [] || (Enabled(g, s, es[0]) && Possible(g, Apply(g, s, es[0]), es[1..]))
  }

  ghost function After(g: Gate, s: State, es: seq<Event>): State
    requires Possible(g, s, es)
    decreases es
  {
    if es == [] then s else After(g, Apply(g, s, es[0]), es[1..])
  }

  // ----- what an intruder can do -----

  /** Any part of what a request task has put on the wire can be sent again. */
  lemma ReplayIsPossible(g: Gate, s: State, i: nat, k: nat, kept: nat)
    requires Silent(s, i) && k < |s.links| && s.links[k].origin.Client?
    requires s.links[k].stream.Some? && kept <= |s.links[k].stream.value|
    ensures Enabled(g, s, Inject(i, s.links[k].stream.value[..kept]))
  {
    var all := s.links[k].stream.value;
    forall e, payload | CarriesEnvelope(g.codec, all[..kept], e, payload) && e.token == g.token
      ensures Sent(g, s.links, e)
    {
      assert CarriesEnvelope(g.codec, all, e, payload);
      FramedEnvelopeIsAuthentic(g, ToMessage(g, s.links[k]), e, payload);
      assert Sends(g, s.links[k], e);
    }
  }

  /** And that is all: what arrives authentic from an intruder was sent by a
      request task before. */
  lemma InjectedIsOverheard(g: Gate, s: State, i: nat, stream: seq<byte>)
    requires Enabled(g, s, Inject(i, stream))
    ensures var a := ArrivalOf(g, s.links[i].(stream := Some(stream)));
            a.Authentic? ==> Sent(g, s.links, a.envelope)
  {
    var m := Message(s.links[i].origin.peerUid, stream);
    var a := Classify(g, m);
    if a.Authentic? {
      AuthenticExactly(g, m, a.envelope);
    }
  }

  // ----- the invariant -----

  /** A client's link carries nothing authentic but its own envelope, under its
      own ticket. */
  ghost predicate LinkOk(g: Gate, l: Link) {
    && (l.origin.Foreign? ==> l.ticket == None)
    && (l.ticket.Some? ==> 0 < l.ticket.value)
    && (l.origin.Client? && ArrivalOf(g, l).Authentic? ==>
          && l.stream.Some? && l.ticket.Some?
          && ArrivalOf(g, l).envelope == AuthenticatedRequest(g.token, l.ticket.value, l.origin.request))
  }

  /** Whoever delivers an envelope, some request task sent it. */
  ghost predicate AllSent(g: Gate, links: seq<Link>) {
    forall i :: 0 <= i < |links| && ArrivalOf(g, links[i]).Authentic? ==>
      Sent(g, links, ArrivalOf(g, links[i]).envelope)
  }

  /** Until the counter wraps, tickets are fresh draws: no two links share one. */
  ghost predicate TicketsOk(s: State) {
    && s.counter == s.drawn % TWO_TO_64
    && (s.drawn <= TWO_TO_64 ==>
          && (forall i :: 0 <= i < |s.links| && s.links[i].ticket.Some? ==> s.links[i].ticket.value <= s.drawn)
          && (forall i, j :: 0 <= i < j < |s.links| && s.links[i].ticket.Some? && s.links[j].ticket.Some? ==>
                s.links[i].ticket != s.links[j].ticket))
  }

  ghost predicate Invariant(g: Gate, s: State) {
    && s.served <= |s.links|
    && s.lastCounter == LastCounter(Arrivals(g, s.links[..s.served]))
    && (forall i :: 0 <= i < s.served ==> s.links[i].stream.Some?)
    && (forall i :: 0 <= i < |s.links| ==> LinkOk(g, s.links[i]))
    && AllSent(g, s.links)
    && (forall i :: 0 <= i < |s.links| ==> (s.links[i].reply.Some? <==> i < s.served))
    && TicketsOk(s)
  }

  lemma EmptyStreamIsDropped(g: Gate, l: Link)
    requires l.stream == None || l.stream == Some([])
    ensures ArrivalOf(g, l) == Dropped
  {
  }

  lemma ClientLinkOk(g: Gate, l: Link, kept: nat)
    requires g.codec.Faithful() && l.origin.Client?
    requires l.ticket.Some? ==> 0 < l.ticket.value
    requires kept <= |LinkBytes(g, l)|
    ensures LinkOk(g, l.(stream := Some(LinkBytes(g, l)[..kept])))
  {
    var l' := l.(stream := Some(LinkBytes(g, l)[..kept]));
    if l.ticket.Some? {
      ServerSeesTheEnvelopeOrNothing(g, l.ticket.value - 1, l.origin.request, kept);
    } else {
      EmptyStreamIsDropped(g, l');
    }
  }

  /** Links are only ever added, and what was delivered stays delivered. */
  ghost predicate Grows(g: Gate, links: seq<Link>, links': seq<Link>) {
    && |links| <= |links'|
    && forall k :: 0 <= k < |links| ==>
         && links'[k].origin == links[k].origin
         && (ArrivalOf(g, links[k]).Authentic? ==> ArrivalOf(g, links'[k]) == ArrivalOf(g, links[k]))
  }

  lemma SentStays(g: Gate, links: seq<Link>, links': seq<Link>, e: AuthenticatedRequest)
    requires Grows(g, links, links') && Sent(g, links, e)
    ensures Sent(g, links', e)
  {
    var k :| 0 <= k < |links| && Sends(g, links[k], e);
    assert Sends(g, links'[k], e);
  }

  /** New deliveries by clients are their own, by intruders they are copies. */
  lemma AllSentStays(g: Gate, links: seq<Link>, links': seq<Link>)
    requires AllSent(g, links) && Grows(g, links, links')
    requires forall i :: 0 <= i < |links'| && links'[i].origin.Foreign? && ArrivalOf(g, links'[i]).Authentic? ==>
               Sent(g, links, ArrivalOf(g, links'[i]).envelope)
    ensures AllSent(g, links')
  {
    forall i | 0 <= i < |links'| && ArrivalOf(g, links'[i]).Authentic?
      ensures Sent(g, links', ArrivalOf(g, links'[i]).envelope)
    {
      if links'[i].origin.Client? {
        assert Sends(g, links'[i], ArrivalOf(g, links'[i]).envelope);
      } else {
        SentStays(g, links, links', ArrivalOf(g, links'[i]).envelope);
      }
    }
  }

  /** Appending a link, or changing one that has delivered nothing yet, leaves the
      served past alone. */
  lemma FutureChangeKeepsInvariant(g: Gate, s: State, s': State, i: nat)
    requires Invariant(g, s) && TicketsOk(s')
    requires |s.links| <= |s'.links|
    requires s.served <= i < |s'.links|
    requires forall k :: 0 <= k < |s'.links| && k != i ==> k < |s.links| && s'.links[k] == s.links[k]
    requires i < |s.links| ==> s.links[i].stream == None && s'.links[i].origin == s.links[i].origin
    requires s'.served == s.served && s'.lastCounter == s.lastCounter
    requires LinkOk(g, s'.links[i]) && s'.links[i].reply == None
    requires s'.links[i].origin.Foreign? && ArrivalOf(g, s'.links[i]).Authentic? ==>
               Sent(g, s.links, ArrivalOf(g, s'.links[i]).envelope)
    ensures Invariant(g, s')
  {
    assert s'.links[..s.served] == s.links[..s.served];
    if i < |s.links| {
      EmptyStreamIsDropped(g, s.links[i]);
    }
    AllSentStays(g, s.links, s'.links);
  }

  lemma DrawKeepsTickets(g: Gate, s: State, i: nat)
    requires TicketsOk(s) && Enabled(g, s, Draw(i))
    ensures TicketsOk(Apply(g, s, Draw(i)))
  {
    if s.drawn < TWO_TO_64 {
      assert s.counter == s.drawn;
    }
  }

  lemma ReplyIsNotRead(g: Gate, l: Link, reply: Option<seq<byte>>)
    ensures ArrivalOf(g, l.(reply := reply)) == ArrivalOf(g, l)
    ensures LinkOk(g, l) ==> LinkOk(g, l.(reply := reply))
  {
    assert ToMessage(g, l.(reply := reply)) == ToMessage(g, l);
  }

  lemma OneMoreArrival(g: Gate, links: seq<Link>, l: Link)
    ensures LastCounter(Arrivals(g, links + [l])) == Advance(LastCounter(Arrivals(g, links)), ArrivalOf(g, l))
  {
    var now := Arrivals(g, links + [l]);
    assert now[..|links|] == Arrivals(g, links);
  }

  lemma ServeKeepsSent(g: Gate, s: State, dispatched: CaResponse)
    requires AllSent(g, s.links) && Enabled(g, s, Serve(dispatched))
    ensures AllSent(g, Apply(g, s, Serve(dispatched)).links)
  {
    var links := Apply(g, s, Serve(dispatched)).links;
    ReplyIsNotRead(g, s.links[s.served], links[s.served].reply);
    AllSentStays(g, s.links, links);
  }

  lemma ServeCounts(g: Gate, s: State, dispatched: CaResponse)
    requires Enabled(g, s, Serve(dispatched))
    requires s.lastCounter == LastCounter(Arrivals(g, s.links[..s.served]))
    ensures var s' := Apply(g, s, Serve(dispatched));
            s'.lastCounter == LastCounter(Arrivals(g, s'.links[..s'.served]))
  {
    var n, reply := s.served, Apply(g, s, Serve(dispatched)).links[s.served].reply;
    ServedArrival(g, s.links, n, reply);
  }

  lemma ServedArrival(g: Gate, links: seq<Link>, n: nat, reply: Option<seq<byte>>)
    requires n < |links|
    ensures LastCounter(Arrivals(g, links[n := links[n].(reply := reply)][..n + 1])) ==
            Advance(LastCounter(Arrivals(g, links[..n])), ArrivalOf(g, links[n]))
  {
    var l := links[n].(reply := reply);
    ReplyIsNotRead(g, links[n], reply);
    OneMoreArrival(g, links[..n], l);
    assert links[n := l][..n + 1] == links[..n] + [l];
  }

  lemma SameTicketsOk(s: State, s': State)
    requires TicketsOk(s) && s'.counter == s.counter && s'.drawn == s.drawn && |s'.links| == |s.links|
    requires forall i :: 0 <= i < |s.links| ==> s'.links[i].ticket == s.links[i].ticket
    ensures TicketsOk(s')
  {
  }

  lemma ServeKeepsInvariant(g: Gate, s: State, dispatched: CaResponse)
    requires Invariant(g, s) && Enabled(g, s, Serve(dispatched))
    ensures Invariant(g, Apply(g, s, Serve(dispatched)))
  {
    var s', n := Apply(g, s, Serve(dispatched)), s.served;
    ReplyIsNotRead(g, s.links[n], s'.links[n].reply);
    ServeCounts(g, s, dispatched);
    assert forall i :: 0 <= i < |s.links| && i != n ==> s'.links[i] == s.links[i];
    ServeKeepsSent(g, s, dispatched);
    SameTicketsOk(s, s');
  }

  lemma NewLinkKeepsInvariant(g: Gate, s: State, e: Event)
    requires Invariant(g, s) && Enabled(g, s, e) && (e.Connect? || e.Intrude?)
    ensures Invariant(g, Apply(g, s, e))
  {
    EmptyStreamIsDropped(g, Apply(g, s, e).links[|s.links|]);
    FutureChangeKeepsInvariant(g, s, Apply(g, s, e), |s.links|);
  }

  lemma InjectKeepsInvariant(g: Gate, s: State, i: nat, stream: seq<byte>)
    requires Invariant(g, s) && Enabled(g, s, Inject(i, stream))
    ensures Invariant(g, Apply(g, s, Inject(i, stream)))
  {
    assert LinkOk(g, s.links[i]);
    InjectedIsOverheard(g, s, i, stream);
    FutureChangeKeepsInvariant(g, s, Apply(g, s, Inject(i, stream)), i);
  }

  lemma DrawKeepsInvariant(g: Gate, s: State, i: nat)
    requires Invariant(g, s) && Enabled(g, s, Draw(i))
    ensures Invariant(g, Apply(g, s, Draw(i)))
  {
    DrawKeepsTickets(g, s, i);
    EmptyStreamIsDropped(g, Apply(g, s, Draw(i)).links[i]);
    FutureChangeKeepsInvariant(g, s, Apply(g, s, Draw(i)), i);
  }

  lemma BreakKeepsInvariant(g: Gate, s: State, i: nat, kept: nat)
    requires g.codec.Faithful() && Invariant(g, s) && Enabled(g, s, Break(i, kept))
    ensures Invariant(g, Apply(g, s, Break(i, kept)))
  {
    assert LinkOk(g, s.links[i]);
    ClientLinkOk(g, s.links[i], kept);
    FutureChangeKeepsInvariant(g, s, Apply(g, s, Break(i, kept)), i);
  }

  /** A completed write is a break after the last byte. */
  lemma WriteIsFullBreak(g: Gate, s: State, i: nat)
    requires Enabled(g, s, Write(i))
    ensures var all := |LinkBytes(g, s.links[i])|;
            Enabled(g, s, Break(i, all)) && Apply(g, s, Write(i)) == Apply(g, s, Break(i, all))
  {
    var bytes := LinkBytes(g, s.links[i]);
    assert bytes[..|bytes|] == bytes;
  }

  lemma StepKeepsInvariant(g: Gate, s: State, e: Event)
    requires g.codec.Faithful() && Invariant(g, s) && Enabled(g, s, e)
    ensures Invariant(g, Apply(g, s, e))
  {
    match e
    case Connect(_, _) => NewLinkKeepsInvariant(g, s, e);
    case Intrude(_) => NewLinkKeepsInvariant(g, s, e);
    case Inject(i, stream) => InjectKeepsInvariant(g, s, i, stream);
    case Draw(i) => DrawKeepsInvariant(g, s, i);
    case Write(i) =>
      WriteIsFullBreak(g, s, i);
      BreakKeepsInvariant(g, s, i, |LinkBytes(g, s.links[i])|);
    case Break(i, kept) => BreakKeepsInvariant(g, s, i, kept);
    case Serve(dispatched) => ServeKeepsInvariant(g, s, dispatched);
  }

  /** The invariant holds after every run. */
  lemma {:induction false} RunKeepsInvariant(g: Gate, s: State, es: seq<Event>)
    requires g.codec.Faithful() && Invariant(g, s) && Possible(g, s, es)
    ensures Invariant(g, After(g, s, es))
    decreases es
  {
    if es != [] {
      StepKeepsInvariant(g, s, es[0]);
      RunKeepsInvariant(g, Apply(g, s, es[0]), es[1..]);
    }
  }

  lemma InitialInvariant(g: Gate)
    ensures Invariant(g, INITIAL)
  {
  }

  // ----- who is rejected for its counter -----

  /** The server's verdict on connection `i` of a run. */
  function Ruling(g: Gate, s: State, i: nat): Verdict
    requires i < s.served <= |s.links|
  {
    VerdictAt(Arrivals(g, s.links[..s.served]), i)
  }

  /** Connection `i` delivered the request of client link `k`: its own, if it is
      a client's, a copy, if it is an intruder's. */
  predicate Carries(g: Gate, s: State, i: nat, k: nat) {
    && i < |s.links| && k < |s.links|
    && (s.links[i].origin.Client? ==> k == i)
    && ArrivalOf(g, s.links[i]).Authentic?
    && Sends(g, s.links[k], ArrivalOf(g, s.links[i]).envelope)
  }

  /** `j` delivered, before `i` was connected, the very request `k` or one with a
      larger ticket. */
  predicate Ahead(g: Gate, s: State, j: nat, m: nat, i: nat, k: nat) {
    && j < i && Carries(g, s, j, m) && k < |s.links|
    && (m == k || (s.links[m].ticket.Some? && s.links[k].ticket.Some?
                   && s.links[k].ticket.value < s.links[m].ticket.value))
  }

  /** Connection `i`, which delivers the request of link `k`, comes too late. */
  predicate Overtaken(g: Gate, s: State, i: nat, k: nat) {
    exists j: nat, m: nat :: j < |s.links| && m < |s.links| && Ahead(g, s, j, m, i, k)
  }

  lemma CarriedUnderItsTicket(g: Gate, s: State, i: nat, k: nat)
    requires Invariant(g, s) && Carries(g, s, i, k)
    ensures s.links[k].ticket == Some(ArrivalOf(g, s.links[i]).envelope.counter)
    ensures 0 < s.links[k].ticket.value
  {
    assert LinkOk(g, s.links[k]);
  }

  /** Nothing authentic without a request task behind it. */
  lemma EveryDeliveryIsCarried(g: Gate, s: State, i: nat) returns (k: nat)
    requires Invariant(g, s) && i < |s.links| && ArrivalOf(g, s.links[i]).Authentic?
    ensures Carries(g, s, i, k)
  {
    var e := ArrivalOf(g, s.links[i]).envelope;
    assert Sent(g, s.links, e);
    k :| 0 <= k < |s.links| && Sends(g, s.links[k], e);
    if s.links[i].origin.Client? {
      k := i;
    }
  }

  /** Over every interleaving before the counter wraps, replays included: a
      delivered request is rejected exactly when a connection made earlier
      delivered the same request or one with a larger ticket, and is accepted
      otherwise. */
  lemma RejectedExactlyWhenOvertaken(g: Gate, es: seq<Event>, i: nat, k: nat)
    requires g.codec.Faithful() && Possible(g, INITIAL, es)
    requires After(g, INITIAL, es).drawn <= TWO_TO_64
    requires i < After(g, INITIAL, es).served <= |After(g, INITIAL, es).links|
    requires Carries(g, After(g, INITIAL, es), i, k)
    ensures var s := After(g, INITIAL, es);
            && (Ruling(g, s, i) == Stale <==> Overtaken(g, s, i, k))
            && (Ruling(g, s, i) == Accepted <==> !Overtaken(g, s, i, k))
  {
    InitialInvariant(g);
    RunKeepsInvariant(g, INITIAL, es);
    RulingInState(g, After(g, INITIAL, es), i, k);
  }

  lemma RulingInState(g: Gate, s: State, i: nat, k: nat)
    requires Invariant(g, s) && s.drawn <= TWO_TO_64 && i < s.served && Carries(g, s, i, k)
    ensures Ruling(g, s, i) == Stale <==> Overtaken(g, s, i, k)
    ensures Ruling(g, s, i) == Accepted <==> !Overtaken(g, s, i, k)
  {
    var arrivals := Arrivals(g, s.links[..s.served]);
    assert forall j :: 0 <= j <= i ==> arrivals[j] == ArrivalOf(g, s.links[j]);
    AcceptedExactlyTheRecords(arrivals, i);
    CarriedUnderItsTicket(g, s, i, k);
    OvertakenMeansNotBelow(g, s, i, k);
    assert (exists j: nat :: j < i && NotBelow(g, s.links[j], s.links[i])) <==>
           (exists j: nat :: j < i && arrivals[j].Authentic?
                             && arrivals[i].envelope.counter <= arrivals[j].envelope.counter);
  }

  predicate NotBelow(g: Gate, earlier: Link, later: Link) {
    && ArrivalOf(g, earlier).Authentic? && ArrivalOf(g, later).Authentic?
    && ArrivalOf(g, later).envelope.counter <= ArrivalOf(g, earlier).envelope.counter
  }

  /** Different links hold different tickets. */
  lemma TicketsDecide(s: State, m: nat, tm: u64, k: nat, tk: u64)
    requires TicketsOk(s) && s.drawn <= TWO_TO_64 && m < |s.links| && k < |s.links|
    requires s.links[m].ticket == Some(tm) && s.links[k].ticket == Some(tk)
    ensures m == k || tk < tm <==> tk <= tm
  {
  }

  lemma AheadMeansNotBelow(g: Gate, s: State, j: nat, m: nat, i: nat, k: nat)
    requires Invariant(g, s) && s.drawn <= TWO_TO_64
    requires j < i && Carries(g, s, j, m) && Carries(g, s, i, k)
    ensures Ahead(g, s, j, m, i, k) <==> NotBelow(g, s.links[j], s.links[i])
  {
    CarriedUnderItsTicket(g, s, j, m);
    CarriedUnderItsTicket(g, s, i, k);
    TicketsDecide(s, m, s.links[m].ticket.value, k, s.links[k].ticket.value);
  }

  lemma OvertakenMeansNotBelow(g: Gate, s: State, i: nat, k: nat)
    requires Invariant(g, s) && s.drawn <= TWO_TO_64 && Carries(g, s, i, k)
    ensures Overtaken(g, s, i, k) <==> exists j: nat :: j < i && NotBelow(g, s.links[j], s.links[i])
  {
    if Overtaken(g, s, i, k) {
      var j: nat, m: nat :| j < |s.links| && m < |s.links| && Ahead(g, s, j, m, i, k);
      AheadMeansNotBelow(g, s, j, m, i, k);
    }
    if j: nat :| j < i && NotBelow(g, s.links[j], s.links[i]) {
      var m := EveryDeliveryIsCarried(g, s, j);
      AheadMeansNotBelow(g, s, j, m, i, k);
    }
  }

  /** What delivers no request is never accepted and never stale. */
  lemma OnlyDeliveriesAreJudged(g: Gate, s: State, i: nat)
    requires Invariant(g, s) && i < s.served
    ensures (exists k: nat :: k < |s.links| && Carries(g, s, i, k)) <==> Ruling(g, s, i) in {Accepted, Stale}
  {
    var a := ArrivalOf(g, s.links[i]);
    assert Arrivals(g, s.links[..s.served])[i] == a;
    if a.Authentic? {
      var k := EveryDeliveryIsCarried(g, s, i);
    }
  }

  /** Replay protection over runs of any length, also past the wrap: of all the
      connections that deliver one envelope, at most one is accepted, and every
      one behind the first is stale. */
  lemma RepeatsAreStale(g: Gate, es: seq<Event>, j: nat, i: nat)
    requires g.codec.Faithful() && Possible(g, INITIAL, es)
    requires j < i < After(g, INITIAL, es).served <= |After(g, INITIAL, es).links|
    requires var links := After(g, INITIAL, es).links;
             ArrivalOf(g, links[j]).Authentic? && ArrivalOf(g, links[i]) == ArrivalOf(g, links[j])
    ensures Ruling(g, After(g, INITIAL, es), i) == Stale
  {
    var s := After(g, INITIAL, es);
    AcceptedExactlyTheRecords(Arrivals(g, s.links[..s.served]), i);
  }

  // ----- exchanges that do not overlap between connect and draw -----

  /** No client link is between its connect and its draw. */
  predicate NobodyDrawing(s: State) {
    forall i :: 0 <= i < |s.links| && s.links[i].origin.Client? ==>
      s.links[i].ticket.Some? || s.links[i].stream.Some?
  }

  /** Every connect happens while nobody is about to draw. Calls that do not
      overlap at all are a special case. */
  ghost predicate ConnectsApart(g: Gate, s: State, es: seq<Event>)
    requires Possible(g, s, es)
    decreases es
  {
    es != [] ==>
      && (es[0].Connect? ==> NobodyDrawing(s))
      && ConnectsApart(g, Apply(g, s, es[0]), es[1..])
  }

  /** The tickets drawn so far follow the order of connecting. */
  ghost predicate TicketsInOrder(s: State) {
    forall i, j :: 0 <= i < j < |s.links| && s.links[i].ticket.Some? && s.links[j].ticket.Some? ==>
      s.links[i].ticket.value < s.links[j].ticket.value
  }

  /** Only the client that connected last may still have to draw. */
  ghost predicate DrawsInOrder(s: State) {
    forall i, j :: 0 <= i < j < |s.links| && s.links[i].origin.Client? && s.links[j].origin.Client? ==>
      s.links[i].ticket.Some? || s.links[i].stream.Some?
  }

  ghost predicate InOrder(s: State) {
    TicketsInOrder(s) && DrawsInOrder(s)
  }

  lemma DrawKeepsOrder(g: Gate, s: State, i: nat)
    requires TicketsOk(s) && InOrder(s) && Enabled(g, s, Draw(i)) && s.drawn < TWO_TO_64
    requires forall j :: 0 <= j < |s.links| && s.links[j].origin.Foreign? ==> s.links[j].ticket == None
    ensures InOrder(Apply(g, s, Draw(i)))
  {
    assert s.counter == s.drawn;
    assert forall j :: i < j < |s.links| ==> s.links[j].origin.Foreign?;
  }

  lemma StepKeepsOrder(g: Gate, s: State, e: Event)
    requires TicketsOk(s) && InOrder(s) && Enabled(g, s, e)
    requires forall i :: 0 <= i < |s.links| && s.links[i].origin.Foreign? ==> s.links[i].ticket == None
    requires e.Connect? ==> NobodyDrawing(s)
    requires Apply(g, s, e).drawn <= TWO_TO_64
    ensures InOrder(Apply(g, s, e))
  {
    if e.Draw? {
      DrawKeepsOrder(g, s, e.link);
    } else if e.Connect? || e.Intrude? {
      var links, links' := s.links, Apply(g, s, e).links;
      assert forall i :: 0 <= i < |links| ==> links'[i] == links[i];
    } else {
      var links, links' := s.links, Apply(g, s, e).links;
      assert forall i :: 0 <= i < |links| ==>
               links'[i].ticket == links[i].ticket && links'[i].origin == links[i].origin
               && (links[i].stream.Some? ==> links'[i].stream.Some?);
      SameTicketsSameOrder(s, Apply(g, s, e));
    }
  }

  lemma SameTicketsSameOrder(s: State, s': State)
    requires InOrder(s) && |s'.links| == |s.links|
    requires forall i :: 0 <= i < |s.links| ==>
               s'.links[i].ticket == s.links[i].ticket && s'.links[i].origin == s.links[i].origin
               && (s.links[i].stream.Some? ==> s'.links[i].stream.Some?)
    ensures InOrder(s')
  {
  }

  lemma ForeignersHoldNoTicket(g: Gate, s: State)
    requires Invariant(g, s)
    ensures forall i :: 0 <= i < |s.links| && s.links[i].origin.Foreign? ==> s.links[i].ticket == None
  {
    forall i | 0 <= i < |s.links| && s.links[i].origin.Foreign?
      ensures s.links[i].ticket == None
    {
      assert LinkOk(g, s.links[i]);
    }
  }

  lemma {:induction false} DrawsOnlyGrow(g: Gate, s: State, es: seq<Event>)
    requires Possible(g, s, es)
    ensures s.drawn <= After(g, s, es).drawn
    decreases es
  {
    if es != [] {
      DrawsOnlyGrow(g, Apply(g, s, es[0]), es[1..]);
    }
  }

  lemma {:induction false} RunKeepsOrder(g: Gate, s: State, es: seq<Event>)
    requires g.codec.Faithful() && Invariant(g, s) && InOrder(s)
    requires Possible(g, s, es) && ConnectsApart(g, s, es)
    requires After(g, s, es).drawn <= TWO_TO_64
    ensures InOrder(After(g, s, es))
    decreases es
  {
    if es != [] {
      var next := Apply(g, s, es[0]);
      DrawsOnlyGrow(g, next, es[1..]);
      StepKeepsInvariant(g, s, es[0]);
      ForeignersHoldNoTicket(g, s);
      StepKeepsOrder(g, s, es[0]);
      RunKeepsOrder(g, next, es[1..]);
    }
  }

  /** An intruder connected before `i` and delivered, on that connection, the
      request of `i` or of a client that connected later. */
  predicate Relayed(g: Gate, s: State, i: nat) {
    exists j: nat, m: nat :: j < i <= m < |s.links| && s.links[j].origin.Foreign? && Carries(g, s, j, m)
  }

  /** Where tickets were drawn in connect order, the only rejections are those
      behind a later request that an intruder brought forward. */
  lemma OrderedTicketsYieldOnlyToRelays(g: Gate, es: seq<Event>, i: nat)
    requires g.codec.Faithful() && Possible(g, INITIAL, es)
    requires After(g, INITIAL, es).drawn <= TWO_TO_64 && TicketsInOrder(After(g, INITIAL, es))
    requires i < After(g, INITIAL, es).served <= |After(g, INITIAL, es).links|
    requires Carries(g, After(g, INITIAL, es), i, i)
    ensures Ruling(g, After(g, INITIAL, es), i) == Stale <==> Relayed(g, After(g, INITIAL, es), i)
    ensures Ruling(g, After(g, INITIAL, es), i) == Accepted <==> !Relayed(g, After(g, INITIAL, es), i)
  {
    var s := After(g, INITIAL, es);
    InitialInvariant(g);
    RunKeepsInvariant(g, INITIAL, es);
    RulingInState(g, s, i, i);
    OrderMakesAheadLate(g, s, i);
  }

  lemma OrderMakesAheadLate(g: Gate, s: State, i: nat)
    requires Invariant(g, s) && TicketsInOrder(s) && Carries(g, s, i, i)
    ensures Overtaken(g, s, i, i) <==> Relayed(g, s, i)
  {
    CarriedUnderItsTicket(g, s, i, i);
    if Overtaken(g, s, i, i) {
      var j: nat, m: nat :| j < |s.links| && m < |s.links| && Ahead(g, s, j, m, i, i);
      assert i <= m;
    }
    if Relayed(g, s, i) {
      var j: nat, m: nat :| j < i <= m < |s.links| && s.links[j].origin.Foreign? && Carries(g, s, j, m);
      CarriedUnderItsTicket(g, s, j, m);
      assert Ahead(g, s, j, m, i, i);
    }
  }

  /** Calls that connect while nobody is about to draw are never rejected for
      their counter, whatever tickets were lost to errors, unless an intruder
      got ahead of them with their own or a later request. */
  lemma ApartCallsYieldOnlyToRelays(g: Gate, es: seq<Event>, i: nat)
    requires g.codec.Faithful() && Possible(g, INITIAL, es) && ConnectsApart(g, INITIAL, es)
    requires After(g, INITIAL, es).drawn <= TWO_TO_64
    requires i < After(g, INITIAL, es).served <= |After(g, INITIAL, es).links|
    requires Carries(g, After(g, INITIAL, es), i, i)
    ensures Ruling(g, After(g, INITIAL, es), i) == Stale <==> Relayed(g, After(g, INITIAL, es), i)
    ensures Ruling(g, After(g, INITIAL, es), i) == Accepted <==> !Relayed(g, After(g, INITIAL, es), i)
  {
    InitialInvariant(g);
    RunKeepsOrder(g, INITIAL, es);
    OrderedTicketsYieldOnlyToRelays(g, es, i);
  }

  // ----- overlap can reject a legitimate request -----

  /** Two honest tasks suffice: one connects first but draws second. */
  function OverlapRun(a: CaRequest, b: CaRequest, x: CaResponse, y: CaResponse): seq<Event> {
    [Connect(0, a)] + ([Connect(1, b)] + ([Draw(1)] + ([Draw(0)] + WriteAndServe(x, y))))
  }

  function WriteAndServe(x: CaResponse, y: CaResponse): seq<Event> {
    [Write(1)] + ([Write(0)] + [Serve(x), Serve(y)])
  }

  lemma OverlapRejectsHonestRequest(g: Gate, a: CaRequest, b: CaRequest, x: CaResponse, y: CaResponse)
    requires g.codec.Faithful()
    requires Payload(g.codec, g.token, 1, a).Ok? && |Payload(g.codec, g.token, 1, a).value| <= MAX_MESSAGE_SIZE
    requires Payload(g.codec, g.token, 0, b).Ok? && |Payload(g.codec, g.token, 0, b).value| <= MAX_MESSAGE_SIZE
    ensures Possible(g, INITIAL, OverlapRun(a, b, x, y))
    ensures var s := After(g, INITIAL, OverlapRun(a, b, x, y));
            && s.served == |s.links| == 2
            && Ruling(g, s, 0) == Accepted && Ruling(g, s, 1) == Stale
  {
    CompleteRequestIsAuthentic(g, 1, a);
    CompleteRequestIsAuthentic(g, 0, b);
    var es := OverlapRun(a, b, x, y);
    var s6 := OverlapDraws(g, a, b, x, y);
    ServeTwo(g, s6, x, y);
    var s8 := After(g, INITIAL, es);
    ReplyIsNotRead(g, s6.links[0], s8.links[0].reply);
    ReplyIsNotRead(g, s6.links[1], s8.links[1].reply);
    RejectedExactlyWhenOvertaken(g, es, 0, 0);
    RejectedExactlyWhenOvertaken(g, es, 1, 1);
    assert Ahead(g, s8, 0, 0, 1, 1);
  }

  /** The first six events, up to both requests being written. */
  lemma OverlapDraws(g: Gate, a: CaRequest, b: CaRequest, x: CaResponse, y: CaResponse) returns (s6: State)
    ensures s6 == State(2, 2,
                        [Link(Client(0, a), Some(2), Some(ClientBytes(g.codec, g.token, 1, a)), None),
                         Link(Client(1, b), Some(1), Some(ClientBytes(g.codec, g.token, 0, b)), None)], 0, 0)
    ensures Possible(g, s6, [Serve(x), Serve(y)]) ==>
              && Possible(g, INITIAL, OverlapRun(a, b, x, y))
              && After(g, INITIAL, OverlapRun(a, b, x, y)) == After(g, s6, [Serve(x), Serve(y)])
  {
    var linkA := Link(Client(0, a), None, None, None);
    var linkB := Link(Client(1, b), None, None, None);
    var s1 := State(0, 0, [linkA], 0, 0);
    var s2 := State(0, 0, [linkA, linkB], 0, 0);
    var s3 := State(1, 1, [linkA, linkB.(ticket := Some(1))], 0, 0);
    var s4 := State(2, 2, [linkA.(ticket := Some(2)), linkB.(ticket := Some(1))], 0, 0);
    s6 := OverlapWrites(g, s4, [Serve(x), Serve(y)]);
    var tail := WriteAndServe(x, y);
    Prepend(g, s3, Draw(0), s4, tail);
    Prepend(g, s2, Draw(1), s3, [Draw(0)] + tail);
    Prepend(g, s1, Connect(1, b), s2, [Draw(1)] + ([Draw(0)] + tail));
    Prepend(g, INITIAL, Connect(0, a), s1, [Connect(1, b)] + ([Draw(1)] + ([Draw(0)] + tail)));
  }

  lemma OverlapWrites(g: Gate, s: State, serves: seq<Event>) returns (s6: State)
    requires |s.links| == 2 && Open(s, 0) && Open(s, 1) && s.links[0].ticket.Some? && s.links[1].ticket.Some?
    ensures s6 == s.(links := [s.links[0].(stream := Some(LinkBytes(g, s.links[0]))),
                               s.links[1].(stream := Some(LinkBytes(g, s.links[1])))])
    ensures Possible(g, s6, serves) ==>
              && Possible(g, s, [Write(1)] + ([Write(0)] + serves))
              && After(g, s, [Write(1)] + ([Write(0)] + serves)) == After(g, s6, serves)
  {
    var s5 := Apply(g, s, Write(1));
    s6 := Apply(g, s5, Write(0));
    Prepend(g, s5, Write(0), s6, serves);
    Prepend(g, s, Write(1), s5, [Write(0)] + serves);
  }

  lemma Prepend(g: Gate, s: State, e: Event, s': State, es: seq<Event>)
    requires Enabled(g, s, e) && Apply(g, s, e) == s'
    ensures Possible(g, s', es) ==> Possible(g, s, [e] + es) && After(g, s, [e] + es) == After(g, s', es)
  {
    assert ([e] + es)[1..] == es;
  }

  lemma ServeTwo(g: Gate, s: State, x: CaResponse, y: CaResponse)
    requires s.served == 0 && |s.links| == 2 && s.links[0].stream.Some? && s.links[1].stream.Some?
    ensures Possible(g, s, [Serve(x), Serve(y)])
    ensures var s' := After(g, s, [Serve(x), Serve(y)]);
            && s'.served == |s'.links| == 2 && s'.drawn == s.drawn
            && s'.links[0] == s.links[0].(reply := s'.links[0].reply)
            && s'.links[1] == s.links[1].(reply := s'.links[1].reply)
  {
    var s1 := Apply(g, s, Serve(x));
    var s2 := Apply(g, s1, Serve(y));
    assert After(g, s2, []) == s2;
    Prepend(g, s1, Serve(y), s2, []);
    Prepend(g, s, Serve(x), s1, [Serve(y)] + []);
    assert [Serve(x)] + ([Serve(y)] + []) == [Serve(x), Serve(y)];
  }

  // ----- counter exhaustion -----

  /** Ticket 0 is never issued; the first 2^64 - 1 draws yield distinct tickets
      over all clones; the draw after them yields none and wraps the counter. */
  lemma TicketsUntilExhaustion(g: Gate, es: seq<Event>)
    requires g.codec.Faithful() && Possible(g, INITIAL, es)
    ensures var s := After(g, INITIAL, es);
            && (forall i :: 0 <= i < |s.links| && s.links[i].ticket.Some? ==> 0 < s.links[i].ticket.value)
            && (s.drawn <= U64_MAX ==> s.counter == s.drawn)
            && (s.drawn == U64_MAX ==> Ticket(s.counter) == None && Bump(s.counter) == 0)
            && (s.drawn <= U64_MAX ==>
                  forall i, j :: 0 <= i < j < |s.links| && s.links[i].ticket.Some? && s.links[j].ticket.Some? ==>
                    s.links[i].ticket != s.links[j].ticket)
  {
    InitialInvariant(g);
    RunKeepsInvariant(g, INITIAL, es);
    var s := After(g, INITIAL, es);
    assert forall i :: 0 <= i < |s.links| ==> LinkOk(g, s.links[i]);
  }

  /** Runs of any length, also past the wrap: at most 2^64 - 1 acceptances, and
      none after the one with the largest counter. */
  lemma ExhaustedServerStaysClosed(g: Gate, es: seq<Event>)
    requires g.codec.Faithful() && Possible(g, INITIAL, es)
    ensures var s := After(g, INITIAL, es);
            && s.served <= |s.links|
            && |AcceptedCounters(Arrivals(g, s.links[..s.served]))| <= s.lastCounter <= U64_MAX
            && forall i, j :: 0 <= i < j < s.served && Ruling(g, s, i) == Accepted
                              && ArrivalOf(g, s.links[i]).envelope.counter == U64_MAX ==>
                 Ruling(g, s, j) != Accepted
  {
    InitialInvariant(g);
    RunKeepsInvariant(g, INITIAL, es);
    var s := After(g, INITIAL, es);
    var arrivals := Arrivals(g, s.links[..s.served]);
    AcceptedCountersIncrease(arrivals);
    forall i, j | 0 <= i < j < s.served && Ruling(g, s, i) == Accepted
                  && ArrivalOf(g, s.links[i]).envelope.counter == U64_MAX
      ensures Ruling(g, s, j) != Accepted
    {
      ExhaustionIsFinal(arrivals, i, j);
    }
  }
}
