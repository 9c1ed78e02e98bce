/** Everything together: any number of SSH connections, their request tasks, the
    socket, intruders on it, the CA server and the files it reads, as one step
    system with a log of logins, of the data clients send, of granted requests and of
    what clients see. */
module SigningSystem {
  import opened Base
  import opened Framing
  import opened Protocol
  import opened Admission
  import opened CaClients
  import opened Authority
  import opened ConnectionHandlers
  import opened HostInventory
  import opened Usernames
  import Ipc

  /** What stays fixed during a run. */
  datatype Config = Config(gate: Gate, ca: Ca, printCert: Certificate -> Option<string>)

  /** What a connection is doing: nothing, awaiting the answer on a link (for a
      key check, with the key that was presented), crashed, or gone. */
  datatype Task = Idle | Waiting(link: nat, presented: Option<PublicKey>) | Panicked | Gone

  datatype Conn = Conn(session: Session, task: Task)

  datatype Login =
    | PasswordLogin(conn: nat, user: string, answer: PamAnswer)
    | KeyLogin(conn: nat, host: string, key: PublicKey)

  /** Channel data that an SSH client sent. */
  datatype Received = Received(conn: nat, data: string)

  /** A request that the server accepted: on which connection, under which
      envelope, in which circumstances, and what was answered. */
  datatype Grant = Grant(
    link: nat,
    origin: Ipc.Origin,
    envelope: AuthenticatedRequest,
    world: World,
    clock: Clock,
    response: CaResponse)

  /** What an SSH client sees of one of its requests; `link` is the one on which the
      CA was asked, if it was. */
  datatype Shown = Shown(conn: nat, link: Option<nat>, effects: seq<Effect>)

  datatype State = State(
    conns: seq<Conn>,
    ipc: Ipc.State,
    world: World,
    logins: seq<Login>,
    received: seq<Received>,
    granted: seq<Grant>,
    shown: seq<Shown>)

  datatype Event =
    | NewConnection
    | PasswordAttempt(conn: nat, user: string, answers: seq<PamAnswer>)
    | KeyAttempt(conn: nat, key: PublicKey)
    | ChannelData(conn: nat, data: string)
    | ExecRequest(conn: nat, command: string)
    | Network(event: Ipc.Event)                      // draws, writes, breaks, and all that intruders do
    | ServeNext(clock: Clock)
    | Resume(conn: nat)                              // the reply has arrived
    | IoFailure(conn: nat, error: SendError)         // the exchange failed instead
    | HangUp(conn: nat)
    | EditFiles(world: World)

  function Start(world: World): State {
    State([], Ipc.INITIAL, world, [], [], [], [])
  }

  predicate IdleConn(s: State, c: nat) {
    c < |s.conns| && s.conns[c].task == Idle
  }

  predicate WaitingConn(s: State, c: nat) {
    c < |s.conns| && s.conns[c].task.Waiting? && s.conns[c].task.link < |s.ipc.links|
  }

  /** The environment: login attempts come before success only (section 5.1 of
      RFC 4252), channel events after it; callbacks of one connection do not
      overlap; presented keys have a text form; intruders do what `Ipc` lets them. */
  ghost predicate Enabled(cfg: Config, s: State, e: Event) {
    match e
    case NewConnection => true
    case PasswordAttempt(c, _, _) => IdleConn(s, c) && s.conns[c].session.authMethod == None
    case KeyAttempt(c, key) =>
      IdleConn(s, c) && s.conns[c].session.authMethod == None && KeyCheckRequest(cfg.ca.formats, key).Some?
    case ChannelData(c, _) => IdleConn(s, c) && s.conns[c].session.authMethod.Some?
    case ExecRequest(c, _) => IdleConn(s, c) && s.conns[c].session.authMethod.Some?
    case Network(event) => !event.Connect? && !event.Serve? && Ipc.Enabled(cfg.gate, s.ipc, event)
    case ServeNext(_) => Ipc.Enabled(cfg.gate, s.ipc, Ipc.Serve(KeyFound(None)))
    case Resume(c) => WaitingConn(s, c) && s.ipc.links[s.conns[c].task.link].reply.Some?
    case IoFailure(c, _) => WaitingConn(s, c)
    case HangUp(c) => c < |s.conns|
    case EditFiles(_) => true
  }

  /** `c` sends `request` to the CA and waits. */
  ghost function Send(cfg: Config, s: State, c: nat, request: CaRequest, presented: Option<PublicKey>): State
    requires c < |s.conns|
  {
    s.(conns := s.conns[c := s.conns[c].(task := Waiting(|s.ipc.links|, presented))],
       ipc := Ipc.Apply(cfg.gate, s.ipc, Ipc.Connect(c, request)))
  }

  ghost function Follow(cfg: Config, s: State, c: nat, plan: Plan): State
    requires c < |s.conns|
  {
    match plan
    case Deny => s
    case Ask(request) => Send(cfg, s, c, request, None)
    case _ => Show(s, c, None, AtOnce(plan))
  }

  function Receive(s: State, c: nat, data: string): State {
    s.(received := s.received + [Received(c, data)])
  }

  /** A connection lives on, unless it crashed or was disconnected. */
  function TaskAfter(effects: seq<Effect>): Task {
    if Effect.Crashed in effects then Panicked
    else if Ends(effects) then Gone
    else Idle
  }

  /** The client of `c` sees `effects`. */
  function Show(s: State, c: nat, link: Option<nat>, effects: seq<Effect>): State
    requires c < |s.conns|
  {
    s.(conns := s.conns[c := s.conns[c].(task := TaskAfter(effects))],
       shown := s.shown + [Shown(c, link, effects)])
  }

  /** The answer to a waiting connection's request has come in. */
  function Deliver(cfg: Config, s: State, c: nat, reply: Result<CaResponse, SendError>): State
    requires c < |s.conns| && s.conns[c].task.Waiting?
  {
    var conn := s.conns[c];
    if conn.task.presented.Some? then
      var key := conn.task.presented.value;
      var (session, outcome) := AfterKeyCheck(conn.session, key, reply);
      s.(conns := s.conns[c := Conn(session, if outcome == Panic then Panicked else Idle)],
         logins := if outcome == Accept then s.logins + [KeyLogin(c, session.username.value, key)] else s.logins)
    else
      Show(s, c, Some(conn.task.link), AfterSigning(cfg.printCert, reply))
  }

  /** The first answer that lets `user` in. */
  function Accepting(user: string, answers: seq<PamAnswer>): (a: PamAnswer)
    requires SomeoneAccepts(user, answers)
    ensures a in answers && PamAuthenticate(user, a) == Yes
  {
    if PamAuthenticate(user, answers[0]) == Yes then answers[0]
    else
      assert forall i :: 0 < i < |answers| ==> answers[i] == answers[1..][i - 1];
      Accepting(user, answers[1..])
  }

  /** What the server finds on the next connection. */
  function NextArrival(cfg: Config, s: State): Arrival
    requires s.ipc.served < |s.ipc.links|
  {
    Ipc.ArrivalOf(cfg.gate, s.ipc.links[s.ipc.served])
  }

  /** The grant that an accepted request leads to. */
  function NextGrant(cfg: Config, s: State, clock: Clock): Grant
    requires s.ipc.served < |s.ipc.links| && NextArrival(cfg, s).Authentic?
  {
    var n, e := s.ipc.served, NextArrival(cfg, s).envelope;
    Grant(n, s.ipc.links[n].origin, e, s.world, clock, Dispatch(cfg.ca, s.world, clock, e.request))
  }

  /** The server takes the next connection; an accepted request is carried out. */
  ghost function Serve(cfg: Config, s: State, clock: Clock): State
    requires Enabled(cfg, s, ServeNext(clock))
  {
    if Judge(s.ipc.lastCounter, NextArrival(cfg, s)) == Accepted then
      var grant := NextGrant(cfg, s, clock);
      s.(ipc := Ipc.Apply(cfg.gate, s.ipc, Ipc.Serve(grant.response)), granted := s.granted + [grant])
    else
      s.(ipc := Ipc.Apply(cfg.gate, s.ipc, Ipc.Serve(KeyFound(None))))
  }

  ghost function Apply(cfg: Config, s: State, e: Event): State
    requires Enabled(cfg, s, e)
  {
    match e
    case NewConnection => s.(conns := s.conns + [Conn(FRESH, Idle)])
    case PasswordAttempt(c, user, answers) =>
      var (session, outcome) := AfterPassword(s.conns[c].session, user, answers);
      s.(conns := s.conns[c := s.conns[c].(session := session)],
         logins := if outcome == Accept
                   then s.logins + [PasswordLogin(c, user, Accepting(user, answers))]
                   else s.logins)
    case KeyAttempt(c, key) => Send(cfg, s, c, KeyCheckRequest(cfg.ca.formats, key).value, Some(key))
    case ChannelData(c, data) => Follow(cfg, Receive(s, c, data), c, DataPlan(cfg.ca.formats, s.conns[c].session, data))
    case ExecRequest(c, command) => Follow(cfg, s, c, ExecPlan(cfg.ca.formats, s.conns[c].session, command))
    case Network(event) => s.(ipc := Ipc.Apply(cfg.gate, s.ipc, event))
    case ServeNext(clock) => Serve(cfg, s, clock)
    case Resume(c) =>
      Deliver(cfg, s, c, ReadReply(cfg.gate.codec, s.ipc.links[s.conns[c].task.link].reply.value))
    case IoFailure(c, error) => Deliver(cfg, s, c, Err(error))
    case HangUp(c) => s.(conns := s.conns[c := s.conns[c].(task := Gone)])
    case EditFiles(world) => s.(world := world)
  }

  ghost predicate Possible(cfg: Config, s: State, es: seq<Event>)
    decreases es
  {
    es == [] || (Enabled(cfg, s, es[0]) && Possible(cfg, Apply(cfg, s, es[0]), es[1..]))
  }

  ghost function After(cfg: Config, s: State, es: seq<Event>): State
    requires Possible(cfg, s, es)
    decreases es
  {
    if es == [] then s else After(cfg, Apply(cfg, s, es[0]), es[1..])
  }

  ghost predicate Faithful(cfg: Config) {
    cfg.gate.codec.Faithful() && cfg.ca.formats.Faithful()
  }

  // ----- the invariant -----

  /** The CA answered this connection's own check of this key with this name. */
  predicate Finds(grant: Grant, c: nat, host: string, key: PublicKey) {
    && grant.origin == Ipc.Client(c, grant.envelope.request)
    && grant.envelope.request.CheckPublicKey?
    && grant.envelope.request.publicKey.keyData == key.keyData
    && grant.response == KeyFound(Some(host))
  }

  ghost predicate GoodLogin(granted: seq<Grant>, l: Login) {
    match l
    case PasswordLogin(_, user, answer) =>
      && ValidateUsername(user) && user != "root"
      && answer.login == Yes && (answer.uid.Some? ==> answer.uid.value >= 1000)
    case KeyLogin(c, host, key) =>
      exists grant :: grant in granted && Finds(grant, c, host, key)
  }

  /** The login that entitles connection `c` to `request`. */
  ghost predicate Entitles(l: Login, c: nat, request: CaRequest) {
    match request
    case SignCertificate(user, _) => l.PasswordLogin? && l.conn == c && l.user == user
    case SignHostCertificate(host, key) =>
      l.KeyLogin? && l.conn == c && l.host == host && l.key.keyData == key.keyData
    case CheckPublicKey(_) => true
  }

  ghost predicate Entitled(logins: seq<Login>, c: nat, request: CaRequest) {
    request.CheckPublicKey? || exists l :: l in logins && Entitles(l, c, request)
  }

  /** The client of `c` sent this very key. */
  ghost predicate SentKey(f: Formats, received: seq<Received>, c: nat, key: PublicKey) {
    exists r :: r in received && r.conn == c && f.parseKey(r.data) == Some(key)
  }

  ghost predicate AsksForSentKey(f: Formats, received: seq<Received>, c: nat, request: CaRequest) {
    request.SignCertificate? ==> SentKey(f, received, c, request.publicKey)
  }

  /** User certificates are only asked for on keys that were sent. */
  ghost predicate KeysSent(f: Formats, received: seq<Received>, links: seq<Ipc.Link>) {
    forall k :: 0 <= k < |links| && links[k].origin.Client? ==>
      AsksForSentKey(f, received, links[k].origin.owner, links[k].origin.request)
  }

  ghost predicate SessionOk(logins: seq<Login>, c: nat, session: Session) {
    && Coherent(session)
    && (session.authMethod == Some(Password) ==>
          exists l :: l in logins && l.PasswordLogin? && l.conn == c && session.username == Some(l.user))
    && (session.authMethod == Some(KeyPair) ==>
          exists l :: l in logins && l.KeyLogin? && l.conn == c
                      && session.username == Some(l.host) && session.publicKey == Some(l.key))
  }

  ghost predicate TaskOk(s: Ipc.State, c: nat, conn: Conn) {
    && conn.task != Panicked
    && (conn.task.Waiting? ==>
          && conn.task.link < |s.links|
          && s.links[conn.task.link].origin.Client?
          && s.links[conn.task.link].origin.owner == c
          && RightTask(conn, s.links[conn.task.link].origin.request))
  }

  /** A connection that is not logged in awaits the check of the key it presented. */
  predicate RightTask(conn: Conn, request: CaRequest)
    requires conn.task.Waiting?
  {
    && (conn.task.presented.Some? <==> request.CheckPublicKey?)
    && (conn.task.presented.Some? <==> conn.session.authMethod == None)
    && (conn.task.presented.Some? ==> request.publicKey.keyData == conn.task.presented.value.keyData)
  }

  /** A reply on link `k`, if it can be read at all, fits the request, and if it is
      no error, it is the answer to a request that was granted on this link. */
  ghost predicate ReplyOk(g: Gate, granted: seq<Grant>, l: Ipc.Link, k: nat) {
    l.origin.Client? && l.reply.Some? ==>
      var r := ReadReply(g.codec, l.reply.value);
      r.Ok? ==>
        && Fits(l.origin.request, r.value)
        && (!r.value.Error? ==> exists grant :: grant in granted && Answers(grant, k, l.origin, r.value))
  }

  predicate Answers(grant: Grant, k: nat, origin: Ipc.Origin, response: CaResponse) {
    grant.link == k && grant.origin == origin && grant.response == response
  }

  /** The grant was made on its link, for the envelope found there; its answer is
      what the CA makes of the request, and went back on the link. */
  ghost predicate GrantOk(cfg: Config, ipc: Ipc.State, grant: Grant) {
    && grant.link < ipc.served && grant.link < |ipc.links|
    && grant.origin == ipc.links[grant.link].origin
    && Ipc.ArrivalOf(cfg.gate, ipc.links[grant.link]) == Authentic(grant.envelope)
    && (grant.origin.Client? ==> grant.envelope.request == grant.origin.request)
    && Dispatch(cfg.ca, grant.world, grant.clock, grant.envelope.request) == grant.response
    && ipc.links[grant.link].reply == Some(Ipc.AnswerBytes(cfg.gate.codec, Some(grant.response)))
  }

  function Counters(granted: seq<Grant>): (r: seq<u64>)
    ensures |r| == |granted| && forall k :: 0 <= k < |granted| ==> r[k] == granted[k].envelope.counter
  {
    seq(|granted|, k requires 0 <= k < |granted| => granted[k].envelope.counter)
  }

  /** What the server counted is what it granted. */
  ghost predicate Counted(g: Gate, ipc: Ipc.State, granted: seq<Grant>)
    requires ipc.served <= |ipc.links|
  {
    Counters(granted) == AcceptedCounters(Ipc.Arrivals(g, ipc.links[..ipc.served]))
  }

  /** The client is shown the print of a certificate that was granted to its own
      connection, on the link on which that connection asked. */
  predicate ShowsGrant(cfg: Config, e: Shown, grant: Grant, text: string) {
    && e.link == Some(grant.link)
    && grant.origin == Ipc.Client(e.conn, grant.envelope.request)
    && grant.response.SignedCertificate?
    && cfg.printCert(grant.response.cert) == Some(text)
  }

  ghost predicate ShownOk(cfg: Config, granted: seq<Grant>, e: Shown) {
    forall text :: Data(text) in e.effects ==>
      && e.effects == [Data(text), ExitStatus(0), Eof, Close]
      && exists grant :: grant in granted && ShowsGrant(cfg, e, grant, text)
  }

  predicate Ends(effects: seq<Effect>) {
    exists i :: 0 <= i < |effects| && effects[i].Disconnected?
  }

  /** A connection whose client was disconnected is gone. */
  ghost predicate EndedAreGone(conns: seq<Conn>, shown: seq<Shown>) {
    forall e :: e in shown && Ends(e.effects) ==> e.conn < |conns| && conns[e.conn].task == Gone
  }

  predicate OwnLink(links: seq<Ipc.Link>, c: nat, k: nat) {
    k < |links| && links[k].origin.Client? && links[k].origin.owner == c
  }

  ghost predicate Unshown(shown: seq<Shown>, k: nat) {
    forall i :: 0 <= i < |shown| ==> shown[i].link != Some(k)
  }

  /** The answer on a link is shown to its owner, at most once. */
  ghost predicate ShownOnce(conns: seq<Conn>, links: seq<Ipc.Link>, shown: seq<Shown>) {
    && (forall i :: 0 <= i < |shown| && shown[i].link.Some? ==> OwnLink(links, shown[i].conn, shown[i].link.value))
    && (forall i, j :: 0 <= i < j < |shown| && shown[i].link.Some? ==> shown[i].link != shown[j].link)
    && (forall c :: 0 <= c < |conns| && conns[c].task.Waiting? ==> Unshown(shown, conns[c].task.link))
  }

  ghost predicate Invariant(cfg: Config, s: State) {
    && Ipc.Invariant(cfg.gate, s.ipc)
    && (forall l :: l in s.logins ==> GoodLogin(s.granted, l))
    && (forall c :: 0 <= c < |s.conns| ==> SessionOk(s.logins, c, s.conns[c].session))
    && (forall c :: 0 <= c < |s.conns| ==> TaskOk(s.ipc, c, s.conns[c]))
    && (forall k :: 0 <= k < |s.ipc.links| ==> LinkEntitled(s.logins, s.ipc.links[k]))
    && (forall k :: 0 <= k < |s.ipc.links| ==> ReplyOk(cfg.gate, s.granted, s.ipc.links[k], k))
    && (forall k :: 0 <= k < |s.granted| ==> GrantOk(cfg, s.ipc, s.granted[k]))
    && Counted(cfg.gate, s.ipc, s.granted)
    && (forall e :: e in s.shown ==> ShownOk(cfg, s.granted, e))
    && ShownOnce(s.conns, s.ipc.links, s.shown)
    && KeysSent(cfg.ca.formats, s.received, s.ipc.links)
    && EndedAreGone(s.conns, s.shown)
  }

  ghost predicate LinkEntitled(logins: seq<Login>, l: Ipc.Link) {
    l.origin.Client? ==> Entitled(logins, l.origin.owner, l.origin.request)
  }

  // ----- what each kind of step keeps -----

  lemma MoreLogins(before: seq<Login>, after: seq<Login>)
    requires forall l :: l in before ==> l in after
    ensures forall c, session :: SessionOk(before, c, session) ==> SessionOk(after, c, session)
    ensures forall l :: LinkEntitled(before, l) ==> LinkEntitled(after, l)
  {
    forall c, session | SessionOk(before, c, session)
      ensures SessionOk(after, c, session)
    {
    }
    forall c, request | Entitled(before, c, request)
      ensures Entitled(after, c, request)
    {
    }
  }

  /** Only connection `c` changes, and logins may be added. */
  lemma ConnectionStep(cfg: Config, s: State, c: nat, conn: Conn, logins: seq<Login>)
    requires Invariant(cfg, s) && c < |s.conns|
    requires forall l :: l in s.logins ==> l in logins
    requires forall l :: l in logins ==> GoodLogin(s.granted, l)
    requires SessionOk(logins, c, conn.session) && TaskOk(s.ipc, c, conn)
    requires conn.task.Waiting? ==> Unshown(s.shown, conn.task.link)
    requires s.conns[c].task == Gone ==> conn.task == Gone
    ensures Invariant(cfg, s.(conns := s.conns[c := conn], logins := logins))
  {
    MoreLogins(s.logins, logins);
    OneConnOk(s, c, conn, logins);
    ShownStays(s, c, conn);
  }

  lemma OneConnOk(s: State, c: nat, conn: Conn, logins: seq<Login>)
    requires c < |s.conns| && SessionOk(logins, c, conn.session) && TaskOk(s.ipc, c, conn)
    requires forall k :: 0 <= k < |s.conns| ==> SessionOk(logins, k, s.conns[k].session)
    requires forall k :: 0 <= k < |s.conns| ==> TaskOk(s.ipc, k, s.conns[k])
    ensures var conns := s.conns[c := conn];
            && (forall k :: 0 <= k < |conns| ==> SessionOk(logins, k, conns[k].session))
            && (forall k :: 0 <= k < |conns| ==> TaskOk(s.ipc, k, conns[k]))
  {
  }

  lemma ShownStays(s: State, c: nat, conn: Conn)
    requires c < |s.conns| && ShownOnce(s.conns, s.ipc.links, s.shown) && EndedAreGone(s.conns, s.shown)
    requires conn.task.Waiting? ==> Unshown(s.shown, conn.task.link)
    requires s.conns[c].task == Gone ==> conn.task == Gone
    ensures ShownOnce(s.conns[c := conn], s.ipc.links, s.shown) && EndedAreGone(s.conns[c := conn], s.shown)
  {
  }

  /** The client of `c`, which waits for nothing any more, sees something. */
  lemma ShowStep(cfg: Config, s: State, e: Shown)
    requires Invariant(cfg, s) && ShownOk(cfg, s.granted, e)
    requires e.link.Some? ==> OwnLink(s.ipc.links, e.conn, e.link.value) && Unshown(s.shown, e.link.value)
    requires e.conn < |s.conns| && !s.conns[e.conn].task.Waiting?
    requires Ends(e.effects) ==> s.conns[e.conn].task == Gone
    ensures Invariant(cfg, s.(shown := s.shown + [e]))
  {
    var shown := s.shown + [e];
    assert forall x :: x in shown <==> x in s.shown || x == e;
    forall c | 0 <= c < |s.conns| && s.conns[c].task.Waiting?
      ensures Unshown(shown, s.conns[c].task.link)
    {
      assert TaskOk(s.ipc, c, s.conns[c]) && Unshown(s.shown, s.conns[c].task.link);
    }
    forall i, j | 0 <= i < j < |shown| && shown[i].link.Some?
      ensures shown[i].link != shown[j].link
    {
      assert shown[i] == s.shown[i];
    }
  }

  /** Links are only ever added; an old link keeps its origin and what it delivered,
      and its reply unless it is the one being served. */
  lemma NetworkKeepsLinks(g: Gate, s: Ipc.State, e: Ipc.Event)
    requires Ipc.Enabled(g, s, e)
    ensures var s' := Ipc.Apply(g, s, e);
            && Ipc.Grows(g, s.links, s'.links)
            && (forall k :: 0 <= k < |s.links| && !(e.Serve? && k == s.served) ==>
                  s'.links[k].reply == s.links[k].reply)
            && (forall k :: |s.links| <= k < |s'.links| ==> s'.links[k].reply == None)
            && (if e.Serve? then s'.served == s.served + 1 && |s'.links| == |s.links| else s'.served == s.served)
  {
    if e.Serve? {
      Ipc.ReplyIsNotRead(g, s.links[s.served], Ipc.Apply(g, s, e).links[s.served].reply);
    }
  }

  /** A request task connects only for a request that is entitled and on a sent key. */
  ghost predicate RightConnect(cfg: Config, s: State, e: Ipc.Event) {
    e.Connect? ==>
      Entitled(s.logins, e.owner, e.request) && AsksForSentKey(cfg.ca.formats, s.received, e.owner, e.request)
  }

  lemma NetworkLinks(cfg: Config, s: State, e: Ipc.Event)
    requires Invariant(cfg, s) && Ipc.Enabled(cfg.gate, s.ipc, e) && !e.Serve? && RightConnect(cfg, s, e)
    ensures var links := Ipc.Apply(cfg.gate, s.ipc, e).links;
            && (forall k :: 0 <= k < |links| ==> ReplyOk(cfg.gate, s.granted, links[k], k))
            && (forall k :: 0 <= k < |links| ==> LinkEntitled(s.logins, links[k]))
            && KeysSent(cfg.ca.formats, s.received, links)
  {
    var links := Ipc.Apply(cfg.gate, s.ipc, e).links;
    NetworkKeepsLinks(cfg.gate, s.ipc, e);
    forall k | 0 <= k < |links|
      ensures ReplyOk(cfg.gate, s.granted, links[k], k) && LinkEntitled(s.logins, links[k])
    {
      if k < |s.ipc.links| {
        assert ReplyOk(cfg.gate, s.granted, s.ipc.links[k], k) && LinkEntitled(s.logins, s.ipc.links[k]);
      }
    }
  }

  lemma NetworkStep(cfg: Config, s: State, e: Ipc.Event)
    requires Faithful(cfg) && Invariant(cfg, s) && Ipc.Enabled(cfg.gate, s.ipc, e) && !e.Serve?
    requires RightConnect(cfg, s, e)
    ensures Invariant(cfg, s.(ipc := Ipc.Apply(cfg.gate, s.ipc, e)))
  {
    var ipc' := Ipc.Apply(cfg.gate, s.ipc, e);
    Ipc.StepKeepsInvariant(cfg.gate, s.ipc, e);
    NetworkKeepsLinks(cfg.gate, s.ipc, e);
    NetworkLinks(cfg, s, e);
    TasksGoOn(s.ipc, ipc', s.conns);
    GrantsGoOn(cfg, s.ipc, ipc', s.granted);
    assert ipc'.links[..ipc'.served] == s.ipc.links[..s.ipc.served];
  }

  lemma TasksGoOn(ipc: Ipc.State, ipc': Ipc.State, conns: seq<Conn>)
    requires |ipc.links| <= |ipc'.links|
    requires forall k :: 0 <= k < |ipc.links| ==> ipc'.links[k].origin == ipc.links[k].origin
    requires forall c :: 0 <= c < |conns| ==> TaskOk(ipc, c, conns[c])
    ensures forall c :: 0 <= c < |conns| ==> TaskOk(ipc', c, conns[c])
  {
    forall c | 0 <= c < |conns|
      ensures TaskOk(ipc', c, conns[c])
    {
      assert TaskOk(ipc, c, conns[c]);
    }
  }

  lemma GrantsGoOn(cfg: Config, ipc: Ipc.State, ipc': Ipc.State, granted: seq<Grant>)
    requires Ipc.Grows(cfg.gate, ipc.links, ipc'.links) && ipc.served <= ipc'.served
    requires forall k :: 0 <= k < |ipc.links| && k < ipc.served ==> ipc'.links[k].reply == ipc.links[k].reply
    requires forall k :: 0 <= k < |granted| ==> GrantOk(cfg, ipc, granted[k])
    ensures forall k :: 0 <= k < |granted| ==> GrantOk(cfg, ipc', granted[k])
  {
    forall k | 0 <= k < |granted|
      ensures GrantOk(cfg, ipc', granted[k])
    {
      assert GrantOk(cfg, ipc, granted[k]);
    }
  }

  lemma SendStep(cfg: Config, s: State, c: nat, request: CaRequest, presented: Option<PublicKey>)
    requires Faithful(cfg) && Invariant(cfg, s) && c < |s.conns|
    requires Entitled(s.logins, c, request) && AsksForSentKey(cfg.ca.formats, s.received, c, request)
    requires RightTask(s.conns[c].(task := Waiting(|s.ipc.links|, presented)), request)
    requires s.conns[c].task != Gone
    ensures Invariant(cfg, Send(cfg, s, c, request, presented))
  {
    var e := Ipc.Connect(c, request);
    NetworkStep(cfg, s, e);
    var sent := s.(ipc := Ipc.Apply(cfg.gate, s.ipc, e));
    var conn := s.conns[c].(task := Waiting(|s.ipc.links|, presented));
    assert SessionOk(s.logins, c, s.conns[c].session);
    ConnectionStep(cfg, sent, c, conn, s.logins);
  }

  lemma PasswordStep(cfg: Config, s: State, c: nat, user: string, answers: seq<PamAnswer>)
    requires Invariant(cfg, s) && Enabled(cfg, s, PasswordAttempt(c, user, answers))
    ensures Invariant(cfg, Apply(cfg, s, PasswordAttempt(c, user, answers)))
  {
    var s' := Apply(cfg, s, PasswordAttempt(c, user, answers));
    var conn := s.conns[c];
    assert SessionOk(s.logins, c, conn.session);
    if AfterPassword(conn.session, user, answers).1 == Accept {
      var login := PasswordLogin(c, user, Accepting(user, answers));
      assert login in s'.logins;
      assert GoodLogin(s.granted, login);
    }
    ConnectionStep(cfg, s, c, s'.conns[c], s'.logins);
  }

  lemma DataPlanIsEntitled(cfg: Config, logins: seq<Login>, c: nat, session: Session, data: string)
    requires SessionOk(logins, c, session) && session.authMethod.Some?
    ensures var plan := DataPlan(cfg.ca.formats, session, data);
            plan != Crash && (plan.Ask? ==> !plan.request.CheckPublicKey? && Entitled(logins, c, plan.request))
  {
    var plan := DataPlan(cfg.ca.formats, session, data);
    PlansFollowTheMethod(cfg.ca.formats, session, data, "");
    if plan.Ask? {
      var l :| l in logins && l.PasswordLogin? && l.conn == c && session.username == Some(l.user);
      assert Entitles(l, c, plan.request);
    }
  }

  /** The key put into the request is the session's key, read from its text. */
  lemma ExecPlanIsEntitled(cfg: Config, logins: seq<Login>, c: nat, session: Session, command: string)
    requires Faithful(cfg) && SessionOk(logins, c, session)
    ensures var plan := ExecPlan(cfg.ca.formats, session, command);
            plan != Crash && (plan.Ask? ==> !plan.request.CheckPublicKey? && Entitled(logins, c, plan.request))
  {
    var plan := ExecPlan(cfg.ca.formats, session, command);
    PlansFollowTheMethod(cfg.ca.formats, session, "", command);
    if plan.Ask? {
      var l :| l in logins && l.KeyLogin? && l.conn == c
               && session.username == Some(l.host) && session.publicKey == Some(l.key);
      assert Entitles(l, c, plan.request);
    }
  }

  /** The client of `c` sends data; from now on it counts as sent. */
  lemma ReceiveStep(cfg: Config, s: State, c: nat, data: string)
    requires Invariant(cfg, s)
    ensures Invariant(cfg, Receive(s, c, data))
  {
    var received := s.received + [Received(c, data)];
    forall k | 0 <= k < |s.ipc.links| && s.ipc.links[k].origin.Client?
      ensures AsksForSentKey(cfg.ca.formats, received, s.ipc.links[k].origin.owner, s.ipc.links[k].origin.request)
    {
      assert forall r :: r in s.received ==> r in received;
    }
  }

  lemma DataAsksForSentKey(cfg: Config, s: State, c: nat, data: string)
    requires c < |s.conns|
    ensures var plan := DataPlan(cfg.ca.formats, s.conns[c].session, data);
            plan.Ask? ==> AsksForSentKey(cfg.ca.formats, Receive(s, c, data).received, c, plan.request)
  {
    var plan := DataPlan(cfg.ca.formats, s.conns[c].session, data);
    assert Received(c, data) in Receive(s, c, data).received;
    if plan.Ask? {
      DataAsksForTheSentKey(cfg.ca.formats, s.conns[c].session, data, plan.request);
    }
  }

  lemma FollowStep(cfg: Config, s: State, c: nat, plan: Plan)
    requires Faithful(cfg) && Invariant(cfg, s) && c < |s.conns| && s.conns[c].session.authMethod.Some?
    requires plan != Crash && s.conns[c].task != Gone
    requires plan.Ask? ==>
               && !plan.request.CheckPublicKey? && Entitled(s.logins, c, plan.request)
               && AsksForSentKey(cfg.ca.formats, s.received, c, plan.request)
    ensures Invariant(cfg, Follow(cfg, s, c, plan))
  {
    assert SessionOk(s.logins, c, s.conns[c].session);
    match plan
    case Deny =>
    case Disconnect(message) =>
      var gone := s.conns[c].(task := Gone);
      ConnectionStep(cfg, s, c, gone, s.logins);
      assert AtOnce(plan)[0].Disconnected?;
      ShowStep(cfg, s.(conns := s.conns[c := gone]), Shown(c, None, AtOnce(plan)));
    case Ask(request) => SendStep(cfg, s, c, request, None);
  }

  /** A reply, or the failure to get one, reaches the waiting connection. */
  lemma DeliverStep(cfg: Config, s: State, c: nat, reply: Result<CaResponse, SendError>)
    requires Invariant(cfg, s) && WaitingConn(s, c)
    requires reply.Ok? ==> Fits(s.ipc.links[s.conns[c].task.link].origin.request, reply.value)
    requires var k := s.conns[c].task.link;
             reply.Ok? && !reply.value.Error? ==>
               exists grant :: grant in s.granted && Answers(grant, k, s.ipc.links[k].origin, reply.value)
    ensures Invariant(cfg, Deliver(cfg, s, c, reply))
  {
    var conn := s.conns[c];
    assert SessionOk(s.logins, c, conn.session) && TaskOk(s.ipc, c, conn);
    if conn.task.presented == None {
      SignedStep(cfg, s, c, reply);
    } else if reply.Ok? && reply.value.KeyFound? && reply.value.host.Some? {
      LoginStep(cfg, s, c, conn.task.presented.value, reply.value.host.value);
      LoginDelivered(cfg, s, c, conn.task.presented.value, reply.value.host.value);
    } else {
      ConnectionStep(cfg, s, c, conn.(task := Idle), s.logins);
    }
  }

  /** The answer to a signing request is shown to the client. */
  lemma SignedStep(cfg: Config, s: State, c: nat, reply: Result<CaResponse, SendError>)
    requires Invariant(cfg, s) && WaitingConn(s, c) && s.conns[c].task.presented == None
    requires reply.Ok? ==> !reply.value.KeyFound?
    requires var k := s.conns[c].task.link;
             reply.Ok? && !reply.value.Error? ==>
               exists grant :: grant in s.granted && Answers(grant, k, s.ipc.links[k].origin, reply.value)
    ensures Invariant(cfg, Deliver(cfg, s, c, reply))
  {
    var k, effects := s.conns[c].task.link, AfterSigning(cfg.printCert, reply);
    var conn := s.conns[c].(task := TaskAfter(effects));
    assert SessionOk(s.logins, c, conn.session) && TaskOk(s.ipc, c, s.conns[c]);
    SigningCrashesNever(cfg.printCert, reply);
    ConnectionStep(cfg, s, c, conn, s.logins);
    AnswerIsShown(cfg, s, c, reply);
    ShowStep(cfg, s.(conns := s.conns[c := conn]), Shown(c, Some(k), effects));
  }

  lemma SigningCrashesNever(printCert: Certificate -> Option<string>, reply: Result<CaResponse, SendError>)
    requires reply.Ok? ==> !reply.value.KeyFound?
    ensures TaskAfter(AfterSigning(printCert, reply)) in {Idle, Gone}
  {
    DataOnlyForACertificate(printCert, reply, "");
  }

  /** An answer that comes back to a waiting connection was granted to it. */
  lemma OwnAnswer(cfg: Config, s: State, c: nat, response: CaResponse) returns (grant: Grant)
    requires Invariant(cfg, s) && WaitingConn(s, c)
    requires var k := s.conns[c].task.link;
             exists grant :: grant in s.granted && Answers(grant, k, s.ipc.links[k].origin, response)
    ensures grant in s.granted && grant.link == s.conns[c].task.link && grant.response == response
    ensures grant.origin == Ipc.Client(c, grant.envelope.request) == s.ipc.links[grant.link].origin
  {
    var k := s.conns[c].task.link;
    grant :| grant in s.granted && Answers(grant, k, s.ipc.links[k].origin, response);
    var i :| 0 <= i < |s.granted| && s.granted[i] == grant;
    assert GrantOk(cfg, s.ipc, s.granted[i]) && TaskOk(s.ipc, c, s.conns[c]);
  }

  lemma AnswerIsShown(cfg: Config, s: State, c: nat, reply: Result<CaResponse, SendError>)
    requires Invariant(cfg, s) && WaitingConn(s, c)
    requires var k := s.conns[c].task.link;
             reply.Ok? && !reply.value.Error? ==>
               exists grant :: grant in s.granted && Answers(grant, k, s.ipc.links[k].origin, reply.value)
    ensures ShownOk(cfg, s.granted, Shown(c, Some(s.conns[c].task.link), AfterSigning(cfg.printCert, reply)))
  {
    var k := s.conns[c].task.link;
    var e := Shown(c, Some(k), AfterSigning(cfg.printCert, reply));
    forall text | Data(text) in e.effects
      ensures e.effects == [Data(text), ExitStatus(0), Eof, Close]
      ensures exists grant :: grant in s.granted && ShowsGrant(cfg, e, grant, text)
    {
      DataOnlyForACertificate(cfg.printCert, reply, text);
      var grant := OwnAnswer(cfg, s, c, reply.value);
      assert ShowsGrant(cfg, e, grant, text);
    }
  }

  lemma LoginStep(cfg: Config, s: State, c: nat, key: PublicKey, host: string)
    requires Invariant(cfg, s) && WaitingConn(s, c) && s.conns[c].task.presented == Some(key)
    requires var k := s.conns[c].task.link;
             exists grant :: grant in s.granted && Answers(grant, k, s.ipc.links[k].origin, KeyFound(Some(host)))
    ensures Invariant(cfg, s.(conns := s.conns[c := Conn(Session(Some(host), Some(KeyPair), Some(key)), Idle)],
                              logins := s.logins + [KeyLogin(c, host, key)]))
  {
    var conn, login := Conn(Session(Some(host), Some(KeyPair), Some(key)), Idle), KeyLogin(c, host, key);
    LoginIsFound(cfg, s, c, KeyFound(Some(host)), host, key);
    OneMoreLogin(s.granted, s.logins, login);
    LoggedIn(s.logins, c, host, key);
    ConnectionStep(cfg, s, c, conn, s.logins + [login]);
  }

  lemma OneMoreLogin(granted: seq<Grant>, logins: seq<Login>, login: Login)
    requires GoodLogin(granted, login) && forall l :: l in logins ==> GoodLogin(granted, l)
    ensures forall l :: l in logins + [login] ==> GoodLogin(granted, l)
    ensures forall l :: l in logins ==> l in logins + [login]
  {
  }

  lemma LoggedIn(logins: seq<Login>, c: nat, host: string, key: PublicKey)
    ensures SessionOk(logins + [KeyLogin(c, host, key)], c, Session(Some(host), Some(KeyPair), Some(key)))
  {
    assert KeyLogin(c, host, key) in logins + [KeyLogin(c, host, key)];
  }

  lemma LoginDelivered(cfg: Config, s: State, c: nat, key: PublicKey, host: string)
    requires c < |s.conns| && s.conns[c].task.Waiting? && s.conns[c].task.presented == Some(key)
    ensures Deliver(cfg, s, c, Ok(KeyFound(Some(host)))) ==
            s.(conns := s.conns[c := Conn(Session(Some(host), Some(KeyPair), Some(key)), Idle)],
               logins := s.logins + [KeyLogin(c, host, key)])
  {
  }

  lemma LoginIsFound(cfg: Config, s: State, c: nat, response: CaResponse, host: string, key: PublicKey)
    requires Invariant(cfg, s) && WaitingConn(s, c) && s.conns[c].task.presented == Some(key)
    requires var k := s.conns[c].task.link;
             exists grant :: grant in s.granted && Answers(grant, k, s.ipc.links[k].origin, response)
    requires response == KeyFound(Some(host))
    ensures exists grant :: grant in s.granted && Finds(grant, c, host, key)
  {
    var grant := OwnAnswer(cfg, s, c, response);
    assert TaskOk(s.ipc, c, s.conns[c]);
    assert Finds(grant, c, host, key);
  }

  lemma ResumeStep(cfg: Config, s: State, c: nat)
    requires Invariant(cfg, s) && Enabled(cfg, s, Resume(c))
    ensures Invariant(cfg, Apply(cfg, s, Resume(c)))
  {
    var k := s.conns[c].task.link;
    assert ReplyOk(cfg.gate, s.granted, s.ipc.links[k], k) && TaskOk(s.ipc, c, s.conns[c]);
    DeliverStep(cfg, s, c, ReadReply(cfg.gate.codec, s.ipc.links[k].reply.value));
  }

  /** What the server writes is read back as written, or not at all. */
  lemma AnswerIsOk(g: Gate, granted: seq<Grant>, l: Ipc.Link, k: nat, answer: Option<CaResponse>)
    requires g.codec.Faithful()
    requires l.origin.Client? && answer.Some? ==>
               && Fits(l.origin.request, answer.value)
               && (!answer.value.Error? ==>
                     exists grant :: grant in granted && Answers(grant, k, l.origin, answer.value))
    ensures ReplyOk(g, granted, l.(reply := Some(Ipc.AnswerBytes(g.codec, answer))), k)
  {
    if answer.Some? {
      ReplyArrivesOrFails(g.codec, answer.value);
    }
  }

  lemma ServeStep(cfg: Config, s: State, clock: Clock)
    requires Faithful(cfg) && Invariant(cfg, s) && Enabled(cfg, s, ServeNext(clock))
    ensures Invariant(cfg, Serve(cfg, s, clock))
  {
    var n, s' := s.ipc.served, Serve(cfg, s, clock);
    if Judge(s.ipc.lastCounter, NextArrival(cfg, s)) == Accepted {
      GrantStep(cfg, s, clock);
    } else {
      RefusalStep(cfg, s);
    }
  }

  /** The acceptance log follows the server's verdicts. */
  lemma CountOneMore(g: Gate, ipc: Ipc.State, n: nat, reply: Option<seq<byte>>, a: Arrival)
    requires Ipc.Invariant(g, ipc) && n == ipc.served < |ipc.links| && Ipc.ArrivalOf(g, ipc.links[n]) == a
    ensures var links' := ipc.links[n := ipc.links[n].(reply := reply)];
            AcceptedCounters(Ipc.Arrivals(g, links'[..n + 1])) ==
            AcceptedCounters(Ipc.Arrivals(g, ipc.links[..n])) +
            (if Judge(ipc.lastCounter, a) == Accepted then [a.envelope.counter] else [])
  {
    var l := ipc.links[n].(reply := reply);
    Ipc.ReplyIsNotRead(g, ipc.links[n], reply);
    assert ipc.links[n := l][..n + 1] == ipc.links[..n] + [l];
    assert Ipc.Arrivals(g, ipc.links[..n] + [l]) == Ipc.Arrivals(g, ipc.links[..n]) + [a];
    OneMoreAccepted(Ipc.Arrivals(g, ipc.links[..n]), a);
  }

  /** What is not accepted is answered with an error or not at all. */
  lemma RefusalsAreErrors(v: Verdict, a: Arrival, dispatched: CaResponse)
    ensures v != Accepted && Ipc.Answer(v, a, dispatched).Some? ==> Ipc.Answer(v, a, dispatched).value.Error?
  {
  }

  lemma ServedLink(g: Gate, ipc: Ipc.State, response: CaResponse)
    requires Ipc.Enabled(g, ipc, Ipc.Serve(response))
    ensures var l := ipc.links[ipc.served];
            var a := Ipc.ArrivalOf(g, l);
            var reply := Ipc.AnswerBytes(g.codec, Ipc.Answer(Judge(ipc.lastCounter, a), a, response));
            var ipc' := Ipc.Apply(g, ipc, Ipc.Serve(response));
            ipc'.links == ipc.links[ipc.served := l.(reply := Some(reply))] && ipc'.served == ipc.served + 1
  {
  }

  lemma RefusalStep(cfg: Config, s: State)
    requires Faithful(cfg) && Invariant(cfg, s) && Ipc.Enabled(cfg.gate, s.ipc, Ipc.Serve(KeyFound(None)))
    requires Judge(s.ipc.lastCounter, NextArrival(cfg, s)) != Accepted
    ensures Invariant(cfg, s.(ipc := Ipc.Apply(cfg.gate, s.ipc, Ipc.Serve(KeyFound(None)))))
  {
    var n, a := s.ipc.served, NextArrival(cfg, s);
    var v := Judge(s.ipc.lastCounter, a);
    RefusalsAreErrors(v, a, KeyFound(None));
    AnswerIsOk(cfg.gate, s.granted, s.ipc.links[n], n, Ipc.Answer(v, a, KeyFound(None)));
    ServedLink(cfg.gate, s.ipc, KeyFound(None));
    assert s.granted + [] == s.granted;
    ServedStateOk(cfg, s, KeyFound(None), []);
  }

  lemma NextGrantOk(cfg: Config, s: State, clock: Clock)
    requires Invariant(cfg, s) && s.ipc.served < |s.ipc.links| && NextArrival(cfg, s).Authentic?
    ensures var grant := NextGrant(cfg, s, clock);
            && NewGrantOk(cfg, s, grant)
            && (grant.origin.Client? ==> Fits(grant.origin.request, grant.response))
  {
    assert Ipc.LinkOk(cfg.gate, s.ipc.links[s.ipc.served]);
    DispatchIsRight(cfg.ca, s.world, clock, NextArrival(cfg, s).envelope.request);
  }

  lemma GrantStep(cfg: Config, s: State, clock: Clock)
    requires Faithful(cfg) && Invariant(cfg, s) && Enabled(cfg, s, ServeNext(clock))
    requires Judge(s.ipc.lastCounter, NextArrival(cfg, s)) == Accepted
    ensures Invariant(cfg, Serve(cfg, s, clock))
  {
    var n, grant := s.ipc.served, NextGrant(cfg, s, clock);
    NextGrantOk(cfg, s, clock);
    var granted := s.granted + [grant];
    assert grant in granted && Answers(grant, n, s.ipc.links[n].origin, grant.response);
    AnswerIsOk(cfg.gate, granted, s.ipc.links[n], n, Some(grant.response));
    ServedLink(cfg.gate, s.ipc, grant.response);
    assert Counters([grant]) == [grant.envelope.counter];
    ServedStateOk(cfg, s, grant.response, [grant]);
  }

  /** Reassembles the invariant after the next link has been served. */
  lemma ServedStateOk(cfg: Config, s: State, response: CaResponse, more: seq<Grant>)
    requires Faithful(cfg) && Invariant(cfg, s) && Ipc.Enabled(cfg.gate, s.ipc, Ipc.Serve(response))
    requires var n, ipc' := s.ipc.served, Ipc.Apply(cfg.gate, s.ipc, Ipc.Serve(response));
             && ReplyOk(cfg.gate, s.granted + more, ipc'.links[n], n)
             && (forall k :: 0 <= k < |more| ==> NewGrantOk(cfg, s, more[k]) && more[k].response == response)
             && Counters(more) == (if Judge(s.ipc.lastCounter, NextArrival(cfg, s)) == Accepted
                                   then [NextArrival(cfg, s).envelope.counter] else [])
    ensures Invariant(cfg, s.(ipc := Ipc.Apply(cfg.gate, s.ipc, Ipc.Serve(response)), granted := s.granted + more))
  {
    var ipc', granted := Ipc.Apply(cfg.gate, s.ipc, Ipc.Serve(response)), s.granted + more;
    Ipc.StepKeepsInvariant(cfg.gate, s.ipc, Ipc.Serve(response));
    NetworkKeepsLinks(cfg.gate, s.ipc, Ipc.Serve(response));
    LinksGoOn(cfg, s, ipc', granted);
    TasksGoOn(s.ipc, ipc', s.conns);
    GrantsServed(cfg, s, response, more);
  }

  lemma GrantsServed(cfg: Config, s: State, response: CaResponse, more: seq<Grant>)
    requires Invariant(cfg, s) && Ipc.Enabled(cfg.gate, s.ipc, Ipc.Serve(response))
    requires forall k :: 0 <= k < |more| ==> NewGrantOk(cfg, s, more[k]) && more[k].response == response
    requires Counters(more) == (if Judge(s.ipc.lastCounter, NextArrival(cfg, s)) == Accepted
                                then [NextArrival(cfg, s).envelope.counter] else [])
    ensures var ipc' := Ipc.Apply(cfg.gate, s.ipc, Ipc.Serve(response));
            && ipc'.served <= |ipc'.links| && Counted(cfg.gate, ipc', s.granted + more)
            && forall k :: 0 <= k < |s.granted + more| ==> GrantOk(cfg, ipc', (s.granted + more)[k])
  {
    var ipc' := Ipc.Apply(cfg.gate, s.ipc, Ipc.Serve(response));
    NetworkKeepsLinks(cfg.gate, s.ipc, Ipc.Serve(response));
    ServedLink(cfg.gate, s.ipc, response);
    NewGrants(cfg, s, ipc', more);
    ServeCounted(cfg.gate, s.ipc, ipc', ipc'.links[s.ipc.served].reply, s.granted, more);
  }

  lemma NewGrants(cfg: Config, s: State, ipc': Ipc.State, more: seq<Grant>)
    requires Invariant(cfg, s) && s.ipc.served < |s.ipc.links|
    requires Ipc.Grows(cfg.gate, s.ipc.links, ipc'.links) && ipc'.served == s.ipc.served + 1
    requires forall k :: 0 <= k < s.ipc.served ==> ipc'.links[k].reply == s.ipc.links[k].reply
    requires forall k :: 0 <= k < |more| ==>
               && NewGrantOk(cfg, s, more[k])
               && ipc'.links[s.ipc.served].reply == Some(Ipc.AnswerBytes(cfg.gate.codec, Some(more[k].response)))
    ensures forall k :: 0 <= k < |s.granted + more| ==> GrantOk(cfg, ipc', (s.granted + more)[k])
  {
    GrantsGoOn(cfg, s.ipc, ipc', s.granted);
    forall k | 0 <= k < |more|
      ensures GrantOk(cfg, ipc', more[k])
    {
      assert NewGrantOk(cfg, s, more[k]);
    }
  }

  lemma ServeCounted(g: Gate, ipc: Ipc.State, ipc': Ipc.State, reply: Option<seq<byte>>,
                     granted: seq<Grant>, more: seq<Grant>)
    requires Ipc.Invariant(g, ipc) && Counted(g, ipc, granted) && ipc.served < |ipc.links|
    requires ipc'.served == ipc.served + 1
    requires ipc'.links == ipc.links[ipc.served := ipc.links[ipc.served].(reply := reply)]
    requires var a := Ipc.ArrivalOf(g, ipc.links[ipc.served]);
             Counters(more) == if Judge(ipc.lastCounter, a) == Accepted then [a.envelope.counter] else []
    ensures Counted(g, ipc', granted + more)
  {
    CountOneMore(g, ipc, ipc.served, reply, Ipc.ArrivalOf(g, ipc.links[ipc.served]));
    CountersAppend(granted, more);
  }

  lemma CountersAppend(granted: seq<Grant>, more: seq<Grant>)
    ensures Counters(granted + more) == Counters(granted) + Counters(more)
  {
  }

  ghost predicate NewGrantOk(cfg: Config, s: State, grant: Grant)
    requires s.ipc.served < |s.ipc.links|
  {
    && grant.link == s.ipc.served && grant.origin == s.ipc.links[grant.link].origin
    && NextArrival(cfg, s) == Authentic(grant.envelope)
    && (grant.origin.Client? ==> grant.envelope.request == grant.origin.request)
    && Dispatch(cfg.ca, grant.world, grant.clock, grant.envelope.request) == grant.response
  }

  lemma LinksGoOn(cfg: Config, s: State, ipc': Ipc.State, granted: seq<Grant>)
    requires Invariant(cfg, s) && s.ipc.served < |s.ipc.links| == |ipc'.links|
    requires forall k :: 0 <= k < |s.ipc.links| ==> ipc'.links[k].origin == s.ipc.links[k].origin
    requires forall k :: 0 <= k < |s.ipc.links| && k != s.ipc.served ==> ipc'.links[k].reply == s.ipc.links[k].reply
    requires s.granted <= granted && ReplyOk(cfg.gate, granted, ipc'.links[s.ipc.served], s.ipc.served)
    ensures forall k :: 0 <= k < |ipc'.links| ==> ReplyOk(cfg.gate, granted, ipc'.links[k], k)
    ensures forall k :: 0 <= k < |ipc'.links| ==> LinkEntitled(s.logins, ipc'.links[k])
    ensures forall l :: l in s.logins ==> GoodLogin(granted, l)
    ensures forall e :: e in s.shown ==> ShownOk(cfg, granted, e)
  {
    assert forall grant :: grant in s.granted ==> grant in granted;
    forall k | 0 <= k < |ipc'.links|
      ensures ReplyOk(cfg.gate, granted, ipc'.links[k], k) && LinkEntitled(s.logins, ipc'.links[k])
    {
      assert ReplyOk(cfg.gate, s.granted, s.ipc.links[k], k) && LinkEntitled(s.logins, s.ipc.links[k]);
    }
    forall l | l in s.logins
      ensures GoodLogin(granted, l)
    {
      assert GoodLogin(s.granted, l);
    }
    forall e | e in s.shown
      ensures ShownOk(cfg, granted, e)
    {
      assert ShownOk(cfg, s.granted, e);
    }
  }

  lemma StepKeepsInvariant(cfg: Config, s: State, e: Event)
    requires Faithful(cfg) && Invariant(cfg, s) && Enabled(cfg, s, e)
    ensures Invariant(cfg, Apply(cfg, s, e))
  {
    match e
    case NewConnection => NewConnectionStep(cfg, s);
    case PasswordAttempt(c, user, answers) => PasswordStep(cfg, s, c, user, answers);
    case KeyAttempt(c, key) =>
      assert SessionOk(s.logins, c, s.conns[c].session);
      SendStep(cfg, s, c, KeyCheckRequest(cfg.ca.formats, key).value, Some(key));
    case ChannelData(c, data) =>
      DataPlanIsEntitled(cfg, s.logins, c, s.conns[c].session, data);
      ReceiveStep(cfg, s, c, data);
      DataAsksForSentKey(cfg, s, c, data);
      FollowStep(cfg, Receive(s, c, data), c, DataPlan(cfg.ca.formats, s.conns[c].session, data));
    case ExecRequest(c, command) =>
      ExecPlanIsEntitled(cfg, s.logins, c, s.conns[c].session, command);
      FollowStep(cfg, s, c, ExecPlan(cfg.ca.formats, s.conns[c].session, command));
    case Network(event) => NetworkStep(cfg, s, event);
    case ServeNext(clock) => ServeStep(cfg, s, clock);
    case Resume(c) => ResumeStep(cfg, s, c);
    case IoFailure(c, error) => DeliverStep(cfg, s, c, Err(error));
    case HangUp(c) =>
      assert SessionOk(s.logins, c, s.conns[c].session);
      ConnectionStep(cfg, s, c, s.conns[c].(task := Gone), s.logins);
    case EditFiles(_) =>
  }

  lemma NewConnectionStep(cfg: Config, s: State)
    requires Invariant(cfg, s)
    ensures Invariant(cfg, Apply(cfg, s, NewConnection))
  {
  }

  lemma {:induction false} RunKeepsInvariant(cfg: Config, s: State, es: seq<Event>)
    requires Faithful(cfg) && Invariant(cfg, s) && Possible(cfg, s, es)
    ensures Invariant(cfg, After(cfg, s, es))
    decreases es
  {
    if es != [] {
      StepKeepsInvariant(cfg, s, es[0]);
      RunKeepsInvariant(cfg, Apply(cfg, s, es[0]), es[1..]);
    }
  }

  // ----- the main results -----

  /** Connection `c` made the granted request itself, on a link that delivered it.
      A grant on a client's link is a grant to that client. */
  ghost predicate AskedBy(g: Gate, links: seq<Ipc.Link>, grant: Grant, c: nat) {
    exists k :: 0 <= k < |links|
                && links[k].origin == Ipc.Client(c, grant.envelope.request)
                && Ipc.Sends(g, links[k], grant.envelope)
                && (grant.origin.Client? ==> k == grant.link)
  }

  /** Why a certificate may exist: this connection asked for it, and it had logged in
      accordingly. */
  ghost predicate Justified(cfg: Config, s: State, grant: Grant, c: nat)
    requires grant.response.SignedCertificate?
  {
    && AskedBy(cfg.gate, s.ipc.links, grant, c)
    && exists l :: l in s.logins && l.conn == c && Allows(cfg, s, l, grant)
  }

  ghost predicate Allows(cfg: Config, s: State, l: Login, grant: Grant)
    requires grant.response.SignedCertificate?
  {
    match grant.response.cert.kind
    case UserCert => l.PasswordLogin? && UserCertJustified(cfg, s.received, l, grant)
    case HostCert => l.KeyLogin? && HostCertJustified(cfg, s.granted, l, grant)
  }

  /** A password login under an allowed name that is not root and no system account,
      with PAM's consent; the certificate is for that name, on a key that this very
      connection sent, and worth what the template that the name had when it was
      signed says. */
  ghost predicate UserCertJustified(cfg: Config, received: seq<Received>, l: Login, grant: Grant)
    requires l.PasswordLogin? && grant.response.SignedCertificate?
  {
    var request, cert := grant.envelope.request, grant.response.cert;
    && request.SignCertificate?
    && ValidateUsername(l.user) && l.user != "root"
    && l.answer.login == Yes && (l.answer.uid.Some? ==> l.answer.uid.value >= 1000)
    && SentKey(cfg.ca.formats, received, l.conn, request.publicKey) && cert.keyData == request.publicKey.keyData
    && UserCertOk(cfg.ca, grant.world, grant.clock, l.user, request.publicKey, cert)
  }

  /** A key login, which the CA granted to this connection because the first file
      that held the key, when it was checked, was that host's; the certificate is
      for that very key, and worth what the inventory, which still held the key for
      the host when it was signed, says there. */
  ghost predicate HostCertJustified(cfg: Config, granted: seq<Grant>, l: Login, grant: Grant)
    requires l.KeyLogin? && grant.response.SignedCertificate?
  {
    var request, cert := grant.envelope.request, grant.response.cert;
    && request.SignHostCertificate? && cert.keyData == l.key.keyData
    && HostCertOk(cfg.ca, grant.world, grant.clock, l.host, request.publicKey, cert)
    && exists check :: check in granted && Finds(check, l.conn, l.host, l.key)
                       && FirstHolder(cfg.ca.formats, check.world.inventory, cert.keyData, l.host)
  }

  lemma GrantHasAsker(cfg: Config, s: State, grant: Grant) returns (k: nat)
    requires Invariant(cfg, s) && grant in s.granted
    ensures GrantOk(cfg, s.ipc, grant)
    ensures k < |s.ipc.links| && Ipc.Sends(cfg.gate, s.ipc.links[k], grant.envelope)
    ensures s.ipc.links[k].origin == Ipc.Client(s.ipc.links[k].origin.owner, grant.envelope.request)
    ensures grant.origin.Client? ==> k == grant.link
    ensures Entitled(s.logins, s.ipc.links[k].origin.owner, grant.envelope.request)
    ensures AsksForSentKey(cfg.ca.formats, s.received, s.ipc.links[k].origin.owner, grant.envelope.request)
    ensures AskedBy(cfg.gate, s.ipc.links, grant, s.ipc.links[k].origin.owner)
  {
    var i :| 0 <= i < |s.granted| && s.granted[i] == grant;
    assert GrantOk(cfg, s.ipc, s.granted[i]);
    k := Ipc.EveryDeliveryIsCarried(cfg.gate, s.ipc, grant.link);
    assert Ipc.LinkOk(cfg.gate, s.ipc.links[k]) && LinkEntitled(s.logins, s.ipc.links[k]);
  }

  lemma FoundLoginIsFirstHolder(cfg: Config, s: State, check: Grant, c: nat, host: string, key: PublicKey)
    requires Faithful(cfg) && Invariant(cfg, s) && check in s.granted && Finds(check, c, host, key)
    ensures FirstHolder(cfg.ca.formats, check.world.inventory, key.keyData, host)
  {
    var k := GrantHasAsker(cfg, s, check);
    DispatchIsRight(cfg.ca, check.world, check.clock, check.envelope.request);
  }

  lemma UserCertificateIsJustified(cfg: Config, s: State, grant: Grant, c: nat, user: string, key: PublicKey)
    returns (l: Login)
    requires Invariant(cfg, s) && grant.response.SignedCertificate?
    requires grant.envelope.request == SignCertificate(user, key) && SentKey(cfg.ca.formats, s.received, c, key)
    requires CertifiesWhatWasAsked(cfg.ca, grant.world, grant.clock, grant.envelope.request, grant.response.cert)
    requires Entitled(s.logins, c, grant.envelope.request)
    ensures l in s.logins && l.conn == c && Allows(cfg, s, l, grant)
  {
    l :| l in s.logins && Entitles(l, c, grant.envelope.request);
    assert GoodLogin(s.granted, l);
    assert UserCertJustified(cfg, s.received, l, grant);
  }

  lemma HostCertificateIsJustified(cfg: Config, s: State, grant: Grant, c: nat, host: string, key: PublicKey)
    returns (l: Login)
    requires Faithful(cfg) && Invariant(cfg, s) && grant.response.SignedCertificate?
    requires grant.envelope.request == SignHostCertificate(host, key)
    requires CertifiesWhatWasAsked(cfg.ca, grant.world, grant.clock, grant.envelope.request, grant.response.cert)
    requires Entitled(s.logins, c, grant.envelope.request)
    ensures l in s.logins && l.conn == c && Allows(cfg, s, l, grant)
  {
    l :| l in s.logins && Entitles(l, c, grant.envelope.request);
    assert GoodLogin(s.granted, l);
    var check :| check in s.granted && Finds(check, c, l.host, l.key);
    FoundLoginIsFirstHolder(cfg, s, check, c, l.host, l.key);
    assert HostCertJustified(cfg, s.granted, l, grant);
  }

  lemma CertificateIsJustified(cfg: Config, s: State, grant: Grant) returns (c: nat)
    requires Faithful(cfg) && Invariant(cfg, s) && grant in s.granted && grant.response.SignedCertificate?
    ensures Justified(cfg, s, grant, c)
    ensures grant.origin.Client? ==> c == grant.origin.owner
  {
    var k := GrantHasAsker(cfg, s, grant);
    c := s.ipc.links[k].origin.owner;
    DispatchIsRight(cfg.ca, grant.world, grant.clock, grant.envelope.request);
    match grant.envelope.request
    case SignCertificate(user, key) => var l := UserCertificateIsJustified(cfg, s, grant, c, user, key);
    case SignHostCertificate(host, key) => var l := HostCertificateIsJustified(cfg, s, grant, c, host, key);
    case CheckPublicKey(_) =>
  }

  lemma EveryRunIsSound(cfg: Config, world: World, es: seq<Event>)
    requires Faithful(cfg) && Possible(cfg, Start(world), es)
    ensures Invariant(cfg, After(cfg, Start(world), es))
  {
    Ipc.InitialInvariant(cfg.gate);
    RunKeepsInvariant(cfg, Start(world), es);
  }

  /** Provenance. In every run, whatever connections, tasks, network, intruders
      with their replays, and file edits do, every certificate goes back to a
      login of the connection that asked for it. */
  lemma Provenance(cfg: Config, world: World, es: seq<Event>)
    requires Faithful(cfg) && Possible(cfg, Start(world), es)
    ensures var s := After(cfg, Start(world), es);
            forall grant :: grant in s.granted && grant.response.SignedCertificate? ==>
              exists c :: Justified(cfg, s, grant, c)
  {
    EveryRunIsSound(cfg, world, es);
    var s := After(cfg, Start(world), es);
    forall grant | grant in s.granted && grant.response.SignedCertificate?
      ensures exists c :: Justified(cfg, s, grant, c)
    {
      var c := CertificateIsJustified(cfg, s, grant);
    }
  }

  /** What reaches the clients. In every run, all data that the client of a
      connection is shown is the print of a certificate that was granted to this
      very connection and is justified by a login of it; success follows, and the
      answer on a link is shown once. */
  lemma ClientsSeeTheirOwnCertificates(cfg: Config, world: World, es: seq<Event>, i: nat, text: string)
    requires Faithful(cfg) && Possible(cfg, Start(world), es)
    requires i < |After(cfg, Start(world), es).shown| && Data(text) in After(cfg, Start(world), es).shown[i].effects
    ensures var s := After(cfg, Start(world), es);
            && s.shown[i].effects == [Data(text), ExitStatus(0), Eof, Close]
            && (exists grant :: grant in s.granted && ShowsGrant(cfg, s.shown[i], grant, text)
                                && Justified(cfg, s, grant, s.shown[i].conn))
            && (forall j :: 0 <= j < |s.shown| && j != i ==> s.shown[j].link != s.shown[i].link)
  {
    EveryRunIsSound(cfg, world, es);
    var s := After(cfg, Start(world), es);
    assert s.shown[i] in s.shown;
    var grant :| grant in s.granted && ShowsGrant(cfg, s.shown[i], grant, text);
    var c := CertificateIsJustified(cfg, s, grant);
  }

  /** And certificates do reach the clients. In every run, if a connection still
      waits on the link on which a certificate was granted to it, its answer is
      there, and unless it is larger than a frame may be, the client is shown the
      certificate when the connection goes on. */
  lemma GrantedCertificatesArrive(cfg: Config, world: World, es: seq<Event>, c: nat, grant: Grant, text: string)
    requires Faithful(cfg) && Possible(cfg, Start(world), es)
    requires var s := After(cfg, Start(world), es);
             && WaitingConn(s, c) && s.conns[c].task == Waiting(grant.link, None)
             && grant in s.granted && grant.response.SignedCertificate?
             && cfg.printCert(grant.response.cert) == Some(text)
             && |cfg.gate.codec.encodeResponse(grant.response)| <= MAX_MESSAGE_SIZE
    ensures var s := After(cfg, Start(world), es);
            && Enabled(cfg, s, Resume(c))
            && Apply(cfg, s, Resume(c)).shown ==
               s.shown + [Shown(c, Some(grant.link), [Data(text), ExitStatus(0), Eof, Close])]
  {
    EveryRunIsSound(cfg, world, es);
    var s := After(cfg, Start(world), es);
    var i :| 0 <= i < |s.granted| && s.granted[i] == grant;
    assert GrantOk(cfg, s.ipc, s.granted[i]);
    ReplyArrivesOrFails(cfg.gate.codec, grant.response);
  }

  /** So do logins: a connection that still waits for the check of its key, which the
      CA granted with a host name, is logged in under that name when it goes on. */
  lemma GrantedLoginsArrive(cfg: Config, world: World, es: seq<Event>, c: nat, grant: Grant,
                            key: PublicKey, host: string)
    requires Faithful(cfg) && Possible(cfg, Start(world), es)
    requires var s := After(cfg, Start(world), es);
             && WaitingConn(s, c) && s.conns[c].task == Waiting(grant.link, Some(key))
             && grant in s.granted && grant.response == KeyFound(Some(host))
             && |cfg.gate.codec.encodeResponse(grant.response)| <= MAX_MESSAGE_SIZE
    ensures var s := After(cfg, Start(world), es);
            && Enabled(cfg, s, Resume(c))
            && Apply(cfg, s, Resume(c)).logins == s.logins + [KeyLogin(c, host, key)]
            && Apply(cfg, s, Resume(c)).conns[c] == Conn(Session(Some(host), Some(KeyPair), Some(key)), Idle)
  {
    EveryRunIsSound(cfg, world, es);
    var s := After(cfg, Start(world), es);
    var i :| 0 <= i < |s.granted| && s.granted[i] == grant;
    assert GrantOk(cfg, s.ipc, s.granted[i]);
    ReplyArrivesOrFails(cfg.gate.codec, grant.response);
    LoginDelivered(cfg, s, c, key, host);
  }

  lemma GoneStaysGone(cfg: Config, s: State, e: Event, c: nat)
    requires Enabled(cfg, s, e) && c < |s.conns| && s.conns[c].task == Gone
    ensures c < |Apply(cfg, s, e).conns| && Apply(cfg, s, e).conns[c].task == Gone
  {
  }

  /** Disconnecting is final: in every run, a connection whose client was disconnected
      is gone, and stays so whatever happens next. */
  lemma DisconnectedForGood(cfg: Config, world: World, es: seq<Event>, next: Event, e: Shown)
    requires Faithful(cfg) && Possible(cfg, Start(world), es)
    requires e in After(cfg, Start(world), es).shown && Ends(e.effects)
    ensures var s := After(cfg, Start(world), es);
            && e.conn < |s.conns| && s.conns[e.conn].task == Gone
            && (Enabled(cfg, s, next) ==>
                  e.conn < |Apply(cfg, s, next).conns| && Apply(cfg, s, next).conns[e.conn].task == Gone)
  {
    EveryRunIsSound(cfg, world, es);
    var s := After(cfg, Start(world), es);
    if Enabled(cfg, s, next) {
      GoneStaysGone(cfg, s, next, e.conn);
    }
  }

  /** A call that fails disconnects a client that wants a certificate, and rejects one
      that wants to log in; neither is kept waiting. */
  lemma FailuresEndTheWait(cfg: Config, s: State, c: nat, error: SendError)
    requires WaitingConn(s, c)
    ensures var s' := Apply(cfg, s, IoFailure(c, error));
            if s.conns[c].task.presented.Some?
            then s'.conns[c] == s.conns[c].(task := Idle) && s'.logins == s.logins && s'.shown == s.shown
            else && s'.conns[c] == s.conns[c].(task := Gone)
                 && s'.shown == s.shown + [Shown(c, Some(s.conns[c].task.link),
                                                 [Disconnected("Failed to send request to CA server")])]
  {
    assert AfterSigning(cfg.printCert, Err(error))[0].Disconnected?;
  }

  /** The panics that must not happen cannot: in no run does a connection find a
      reply of the wrong kind or a missing user name. */
  lemma NoPanic(cfg: Config, world: World, es: seq<Event>)
    requires Faithful(cfg) && Possible(cfg, Start(world), es)
    ensures var s := After(cfg, Start(world), es);
            && (forall c :: 0 <= c < |s.conns| ==> s.conns[c].task != Panicked)
            && (forall k :: 0 <= k < |s.ipc.links| && s.ipc.links[k].origin.Client? && s.ipc.links[k].reply.Some? ==>
                  var r := ReadReply(cfg.gate.codec, s.ipc.links[k].reply.value);
                  r.Ok? ==> Fits(s.ipc.links[k].origin.request, r.value))
  {
    EveryRunIsSound(cfg, world, es);
    var s := After(cfg, Start(world), es);
    assert forall c :: 0 <= c < |s.conns| ==> TaskOk(s.ipc, c, s.conns[c]);
    assert forall k :: 0 <= k < |s.ipc.links| ==> ReplyOk(cfg.gate, s.granted, s.ipc.links[k], k);
  }

  /** Replay protection in every run, also past the wrap of the tickets: the
      envelopes granted have strictly increasing counters, so none is granted
      twice, however often and by whomever it is sent; each was made by a
      connection for itself; one server process grants at most 2^64 - 1. */
  lemma EachEnvelopeIsGrantedOnce(cfg: Config, world: World, es: seq<Event>)
    requires Faithful(cfg) && Possible(cfg, Start(world), es)
    ensures var s := After(cfg, Start(world), es);
            && (forall j, k :: 0 <= j < k < |s.granted| ==>
                  s.granted[j].envelope.counter < s.granted[k].envelope.counter)
            && (forall grant :: grant in s.granted ==> exists c :: AskedBy(cfg.gate, s.ipc.links, grant, c))
            && |s.granted| <= s.ipc.lastCounter <= U64_MAX
  {
    EveryRunIsSound(cfg, world, es);
    var s := After(cfg, Start(world), es);
    AcceptedCountersIncrease(Ipc.Arrivals(cfg.gate, s.ipc.links[..s.ipc.served]));
    CountersTell(s.granted);
    forall grant | grant in s.granted
      ensures exists c :: AskedBy(cfg.gate, s.ipc.links, grant, c)
    {
      var k := GrantHasAsker(cfg, s, grant);
    }
  }

  lemma CountersTell(granted: seq<Grant>)
    ensures (forall j, k :: 0 <= j < k < |granted| ==> Counters(granted)[j] < Counters(granted)[k]) ==>
              forall j, k :: 0 <= j < k < |granted| ==> granted[j].envelope.counter < granted[k].envelope.counter
  {
    forall j, k | 0 <= j < k < |granted| && Counters(granted)[j] < Counters(granted)[k]
      ensures granted[j].envelope.counter < granted[k].envelope.counter
    {
    }
  }

  /** The overtaking rule holds inside the composed system: whatever the SSH side,
      intruders and file edits do, a delivered request is refused for its counter
      exactly when a connection made earlier delivered it, or one with a larger
      ticket. */
  lemma OvertakingInTheWholeSystem(cfg: Config, world: World, es: seq<Event>, i: nat, k: nat)
    requires Faithful(cfg) && Possible(cfg, Start(world), es)
    requires After(cfg, Start(world), es).ipc.drawn <= TWO_TO_64
    requires i < After(cfg, Start(world), es).ipc.served <= |After(cfg, Start(world), es).ipc.links|
    requires Ipc.Carries(cfg.gate, After(cfg, Start(world), es).ipc, i, k)
    ensures var ipc := After(cfg, Start(world), es).ipc;
            && (Ipc.Ruling(cfg.gate, ipc, i) == Stale <==> Ipc.Overtaken(cfg.gate, ipc, i, k))
            && (Ipc.Ruling(cfg.gate, ipc, i) == Accepted <==> !Ipc.Overtaken(cfg.gate, ipc, i, k))
  {
    EveryRunIsSound(cfg, world, es);
    Ipc.RulingInState(cfg.gate, After(cfg, Start(world), es).ipc, i, k);
  }
}
