/** Which requests the CA server lets through: classification of one message,
    the replay counter, and what the counter guarantees over whole runs. */
module Admission {
  import opened Base
  import opened Framing
  import opened Protocol

  /** What the server checks a connection against. */
  datatype Gate = Gate(uid: nat, token: string, codec: Codec)

  /** One accepted connection: the peer's UID, unless it could not be read, and
      all bytes the peer sends before it closes. */
  datatype Message = Message(peerUid: Option<nat>, stream: seq<byte>)

  datatype Arrival =
    | Dropped                     // closed without an answer
    | Undecodable                 // answered with a format error
    | BadToken                    // answered with an authentication error
    | Authentic(envelope: AuthenticatedRequest)

  datatype Verdict = Ignored | Refused | Stale | Accepted

  /** The checks that need no server state, in the server's order. */
  function Classify(g: Gate, m: Message): Arrival {
    if m.peerUid != Some(g.uid) then Dropped
    else match ReadFrame(m.stream)
      case ShortRead => Dropped
      case Oversized(_) => Dropped
      case Got(payload) =>
        match g.codec.utf8(payload)
        case None => Dropped
        case Some(text) =>
          match g.codec.parseRequest(text)
          case None => Undecodable
          case Some(envelope) => if envelope.token != g.token then BadToken else Authentic(envelope)
  }

  /** What it takes to be authentic, and nothing else does: the server's own UID,
      and a frame within the limit at the start of the stream, whose payload
      decodes to an envelope with the shared token. */
  lemma AuthenticExactly(g: Gate, m: Message, e: AuthenticatedRequest)
    ensures Classify(g, m) == Authentic(e) <==>
            && m.peerUid == Some(g.uid)
            && e.token == g.token
            && exists payload :: CarriesEnvelope(g.codec, m.stream, e, payload)
  {
    if Classify(g, m) == Authentic(e) {
      GotExactlyFramed(m.stream, ReadFrame(m.stream).payload);
      assert CarriesEnvelope(g.codec, m.stream, e, ReadFrame(m.stream).payload);
    }
    if payload :| CarriesEnvelope(g.codec, m.stream, e, payload) {
      FramedEnvelopeIsAuthentic(g, m, e, payload);
    }
  }

  /** A payload within the limit stands framed at the start of the stream. */
  predicate CarriesPayload(stream: seq<byte>, payload: seq<byte>) {
    |payload| <= 65_536 && Frame(payload) <= stream
  }

  /** Which messages get which refusal: dropped are those of another user, or without
      a frame of text; undecodable those whose text is no envelope; with a bad token
      those whose envelope has another token. */
  lemma RefusalsExactly(g: Gate, m: Message)
    ensures Classify(g, m) == Dropped <==>
            || m.peerUid != Some(g.uid)
            || forall payload :: CarriesPayload(m.stream, payload) ==> g.codec.utf8(payload) == None
    ensures Classify(g, m) == Undecodable <==>
            && m.peerUid == Some(g.uid)
            && exists payload :: CarriesPayload(m.stream, payload) && g.codec.utf8(payload).Some?
                                 && g.codec.OpenRequest(payload) == None
    ensures Classify(g, m) == BadToken <==>
            && m.peerUid == Some(g.uid)
            && exists e, payload :: CarriesEnvelope(g.codec, m.stream, e, payload) && e.token != g.token
  {
    forall payload
      ensures CarriesPayload(m.stream, payload) <==> ReadFrame(m.stream) == Got(payload)
    {
      GotExactlyFramed(m.stream, payload);
    }
    if ReadFrame(m.stream).Got? {
      var payload := ReadFrame(m.stream).payload;
      assert CarriesPayload(m.stream, payload);
      var e := g.codec.OpenRequest(payload);
      assert e.Some? ==> CarriesEnvelope(g.codec, m.stream, e.value, payload);
    }
  }

  lemma FramedEnvelopeIsAuthentic(g: Gate, m: Message, e: AuthenticatedRequest, payload: seq<byte>)
    requires CarriesEnvelope(g.codec, m.stream, e, payload)
    ensures m.peerUid == Some(g.uid) && e.token == g.token ==> Classify(g, m) == Authentic(e)
  {
    GotExactlyFramed(m.stream, payload);
  }

  predicate CarriesEnvelope(codec: Codec, stream: seq<byte>, e: AuthenticatedRequest, payload: seq<byte>) {
    && CarriesPayload(stream, payload)
    && codec.OpenRequest(payload) == Some(e)
  }

  /** A peer that does not know the token: whatever it frames opens to no
      envelope with that token. */
  ghost predicate LacksToken(g: Gate, stream: seq<byte>) {
    forall e, payload :: CarriesEnvelope(g.codec, stream, e, payload) ==> e.token != g.token
  }

  lemma OutsidersAreNotAuthentic(g: Gate, m: Message)
    requires m.peerUid != Some(g.uid) || LacksToken(g, m.stream)
    ensures !Classify(g, m).Authentic?
  {
    if Classify(g, m).Authentic? {
      AuthenticExactly(g, m, Classify(g, m).envelope);
    }
  }

  function Judge(last: u64, a: Arrival): Verdict {
    match a
    case Dropped => Ignored
    case Undecodable => Refused
    case BadToken => Refused
    case Authentic(e) => if e.counter <= last then Stale else Accepted
  }

  function Advance(last: u64, a: Arrival): u64 {
    if Judge(last, a).Accepted? then a.envelope.counter else last
  }

  /** The server's counter after serving `arrivals` from a fresh start. */
  function LastCounter(arrivals: seq<Arrival>): u64 {
    if arrivals == [] then 0
    else Advance(LastCounter(arrivals[..|arrivals| - 1]), arrivals[|arrivals| - 1])
  }

  function VerdictAt(arrivals: seq<Arrival>, i: nat): Verdict
    requires i < |arrivals|
  {
    Judge(LastCounter(arrivals[..i]), arrivals[i])
  }

  /** The counters of the accepted requests, in order of acceptance. */
  function AcceptedCounters(arrivals: seq<Arrival>): seq<u64> {
    if arrivals == [] then []
    else
      var n := |arrivals| - 1;
      AcceptedCounters(arrivals[..n]) +
      (if VerdictAt(arrivals, n).Accepted? then [arrivals[n].envelope.counter] else [])
  }

  lemma OneMoreJudged(arrivals: seq<Arrival>, a: Arrival)
    ensures VerdictAt(arrivals + [a], |arrivals|) == Judge(LastCounter(arrivals), a)
    ensures LastCounter(arrivals + [a]) == Advance(LastCounter(arrivals), a)
  {
    assert (arrivals + [a])[..|arrivals|] == arrivals;
  }

  lemma OneMoreAccepted(arrivals: seq<Arrival>, a: Arrival)
    ensures AcceptedCounters(arrivals + [a]) ==
            AcceptedCounters(arrivals) +
            (if Judge(LastCounter(arrivals), a) == Accepted then [a.envelope.counter] else [])
  {
    assert (arrivals + [a])[..|arrivals|] == arrivals;
  }

  // ----- the counter is a running maximum -----

  /** `last_counter` is the greatest authenticated counter seen, or 0. */
  lemma {:induction false} LastCounterIsMaximum(arrivals: seq<Arrival>)
    ensures forall a :: a in arrivals && a.Authentic? ==> a.envelope.counter <= LastCounter(arrivals)
    ensures LastCounter(arrivals) == 0
            || exists a :: a in arrivals && a.Authentic? && a.envelope.counter == LastCounter(arrivals)
  {
    if arrivals != [] {
      var before, a := arrivals[..|arrivals| - 1], arrivals[|arrivals| - 1];
      assert arrivals == before + [a];
      LastCounterIsMaximum(before);
      assert forall x :: x in arrivals <==> x in before || x == a;
    }
  }

  /** The accepted requests are exactly the strict records, above 0, among the
      authenticated ones; every other authenticated request is stale. */
  lemma AcceptedExactlyTheRecords(arrivals: seq<Arrival>, i: nat)
    requires i < |arrivals| && arrivals[i].Authentic?
    ensures VerdictAt(arrivals, i) == Accepted <==>
            && arrivals[i].envelope.counter > 0
            && forall j :: 0 <= j < i && arrivals[j].Authentic? ==>
                 arrivals[j].envelope.counter < arrivals[i].envelope.counter
    ensures VerdictAt(arrivals, i) == Accepted || VerdictAt(arrivals, i) == Stale
  {
    var before := arrivals[..i];
    LastCounterIsMaximum(before);
    forall j | 0 <= j < i && arrivals[j].Authentic?
      ensures arrivals[j].envelope.counter <= LastCounter(before)
    {
      assert before[j] == arrivals[j];
    }
    if a :| a in before && a.Authentic? && a.envelope.counter == LastCounter(before) {
      var j :| 0 <= j < i && before[j] == a;
      assert arrivals[j] == a;
    }
  }

  /** Accepted counters strictly increase, stay within `last_counter`, and hence
      no two accepted requests share a counter. */
  lemma {:induction false} AcceptedCountersIncrease(arrivals: seq<Arrival>)
    ensures var acc := AcceptedCounters(arrivals);
            && (forall i, j :: 0 <= i < j < |acc| ==> acc[i] < acc[j])
            && (forall i :: 0 <= i < |acc| ==> 0 < acc[i] <= LastCounter(arrivals))
            && |acc| <= LastCounter(arrivals)
  {
    if arrivals != [] {
      var before := arrivals[..|arrivals| - 1];
      AcceptedCountersIncrease(before);
      assert AcceptedCounters(before) <= AcceptedCounters(arrivals);
      assert LastCounter(before) <= LastCounter(arrivals);
    }
  }

  /** One server process accepts at most 2^64 - 1 requests. */
  lemma AtMostAllCounters(arrivals: seq<Arrival>)
    ensures |AcceptedCounters(arrivals)| <= U64_MAX
  {
    AcceptedCountersIncrease(arrivals);
  }

  /** The counter fails closed: after the largest value was accepted, nothing is. */
  lemma ExhaustionIsFinal(arrivals: seq<Arrival>, i: nat, j: nat)
    requires i < j < |arrivals|
    requires VerdictAt(arrivals, i) == Accepted && arrivals[i].envelope.counter == U64_MAX
    ensures VerdictAt(arrivals, j) != Accepted
  {
    if arrivals[j].Authentic? {
      AcceptedExactlyTheRecords(arrivals, j);
    }
  }

  // ----- junk and replays are invisible -----

  /** A message in a noisy run; `noise` marks the inserted ones. */
  datatype Tagged = Tagged(noise: bool, message: Message)

  function Noisy(g: Gate, ts: seq<Tagged>): (r: seq<Arrival>)
    ensures |r| == |ts|
    ensures forall i :: 0 <= i < |ts| ==> r[i] == Classify(g, ts[i].message)
  {
    seq(|ts|, i requires 0 <= i < |ts| => Classify(g, ts[i].message))
  }

  /** The same run without the inserted messages. */
  function Clean(g: Gate, ts: seq<Tagged>): seq<Arrival> {
    if ts == [] then []
    else
      var n := |ts| - 1;
      Clean(g, ts[..n]) + (if ts[n].noise then [] else [Classify(g, ts[n].message)])
  }

  /** Inserted messages are unauthenticated, or carry a counter that an earlier
      authenticated message already reached: a replay, for instance. */
  ghost predicate Harmless(g: Gate, ts: seq<Tagged>) {
    forall i :: 0 <= i < |ts| && ts[i].noise ==>
      || !Classify(g, ts[i].message).Authentic?
      || exists j :: 0 <= j < i && AtLeast(g, ts[j].message, ts[i].message)
  }

  predicate AtLeast(g: Gate, earlier: Message, later: Message) {
    && Classify(g, earlier).Authentic? && Classify(g, later).Authentic?
    && Classify(g, later).envelope.counter <= Classify(g, earlier).envelope.counter
  }

  /** Two runs, one with any number of harmless messages inserted anywhere: same
      final counter, same accepted requests. */
  lemma {:induction false} NoiseIsInvisible(g: Gate, ts: seq<Tagged>)
    requires Harmless(g, ts)
    ensures LastCounter(Noisy(g, ts)) == LastCounter(Clean(g, ts))
    ensures AcceptedCounters(Noisy(g, ts)) == AcceptedCounters(Clean(g, ts))
  {
    if ts != [] {
      var n := |ts| - 1;
      HarmlessPrefix(g, ts, n);
      NoiseIsInvisible(g, ts[..n]);
      assert Noisy(g, ts)[..n] == Noisy(g, ts[..n]);
      if ts[n].noise {
        NoiseIsNotAccepted(g, ts, n);
        assert Clean(g, ts) == Clean(g, ts[..n]);
      } else {
        var clean := Clean(g, ts);
        assert clean == Clean(g, ts[..n]) + [Classify(g, ts[n].message)];
        assert clean[..|clean| - 1] == Clean(g, ts[..n]);
      }
    }
  }

  lemma HarmlessPrefix(g: Gate, ts: seq<Tagged>, n: nat)
    requires Harmless(g, ts) && n <= |ts|
    ensures Harmless(g, ts[..n])
  {
    var pre := ts[..n];
    forall i | 0 <= i < |pre| && pre[i].noise && Classify(g, pre[i].message).Authentic?
      ensures exists j :: 0 <= j < i && AtLeast(g, pre[j].message, pre[i].message)
    {
      var j :| 0 <= j < i && AtLeast(g, ts[j].message, ts[i].message);
      assert AtLeast(g, pre[j].message, pre[i].message);
    }
  }

  lemma NoiseIsNotAccepted(g: Gate, ts: seq<Tagged>, i: nat)
    requires Harmless(g, ts) && i < |ts| && ts[i].noise
    ensures VerdictAt(Noisy(g, ts), i) != Accepted
  {
    var run := Noisy(g, ts);
    if run[i].Authentic? {
      var j :| 0 <= j < i && AtLeast(g, ts[j].message, ts[i].message);
      AcceptedExactlyTheRecords(run, i);
      assert run[j].Authentic?;
    }
  }

  /** The verdict on every other message is the one it gets in the clean run. */
  lemma {:induction false} NoiseChangesNoVerdict(g: Gate, ts: seq<Tagged>, i: nat)
    requires Harmless(g, ts) && i < |ts| && !ts[i].noise
    ensures var k := |Clean(g, ts[..i])|;
            && k < |Clean(g, ts)|
            && Clean(g, ts)[k] == Classify(g, ts[i].message)
            && VerdictAt(Noisy(g, ts), i) == VerdictAt(Clean(g, ts), k)
  {
    var k := |Clean(g, ts[..i])|;
    HarmlessPrefix(g, ts, i);
    NoiseIsInvisible(g, ts[..i]);
    assert Noisy(g, ts)[..i] == Noisy(g, ts[..i]);
    assert ts[..i + 1][..i] == ts[..i];
    CleanPrefix(g, ts, i);
    CleanPrefix(g, ts, i + 1);
    assert Clean(g, ts)[..k] == Clean(g, ts[..i]);
    assert Clean(g, ts)[..k + 1][k] == Clean(g, ts)[k];
  }

  lemma {:induction false} CleanPrefix(g: Gate, ts: seq<Tagged>, n: nat)
    requires n <= |ts|
    ensures Clean(g, ts[..n]) <= Clean(g, ts)
  {
    if n == |ts| {
      assert ts[..n] == ts;
    } else {
      CleanPrefix(g, ts[..|ts| - 1], n);
      assert ts[..|ts| - 1][..n] == ts[..n];
    }
  }
}
