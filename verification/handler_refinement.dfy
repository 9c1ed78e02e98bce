/** The callbacks of one SSH connection do what the whole system says: each is an
    event of the system, followed, once the CA has answered, by the delivery of the
    answer. */
module HandlerRefinement {
  import opened Base
  import opened Protocol
  import opened CaClients
  import opened ConnectionHandlers
  import opened SigningSystem

  /** The handler stands for connection `c`, which is not in a callback. */
  ghost predicate StandsFor(cfg: Config, h: ConnectionHandler, s: SigningSystem.State, c: nat)
    reads h
  {
    && h.formats == cfg.ca.formats && h.printCert == cfg.printCert
    && h.client.codec == cfg.gate.codec && h.client.token == cfg.gate.token
    && IdleConn(s, c) && s.conns[c].session == h.State()
  }

  /** Whatever happens elsewhere while `c` waits: it is still where it was. */
  predicate StillWaits(s: SigningSystem.State, c: nat, later: SigningSystem.State) {
    && c < |s.conns| && c < |later.conns|
    && s.conns[c].task.Waiting? && later.conns[c] == s.conns[c]
  }

  /** From `s` the callback for channel data or a command took connection `c`, by
      `plan`, to `asked`, and its client sees `effects`: at once, or when `reply`
      comes in, at whatever moment. */
  ghost predicate Answered(cfg: Config, s: SigningSystem.State, c: nat, plan: Plan, asked: SigningSystem.State,
                           reply: Result<CaResponse, SendError>, effects: seq<Effect>)
    requires IdleConn(s, c)
  {
    && asked == Follow(cfg, s, c, plan)
    && (plan.Deny? ==> asked.shown == s.shown && effects == [])
    && (plan.Disconnect? || plan.Crash? ==> asked.shown == s.shown + [Shown(c, None, effects)])
    && (plan.Ask? ==>
          && asked.ipc.links == s.ipc.links + [Ipc.Link(Ipc.Client(c, plan.request), None, None, None)]
          && forall later :: StillWaits(asked, c, later) ==>
               Deliver(cfg, later, c, reply).shown == later.shown + [Shown(c, Some(|s.ipc.links|), effects)])
  }

  lemma FollowedPlan(cfg: Config, s: SigningSystem.State, c: nat, plan: Plan,
                     reply: Result<CaResponse, SendError>, effects: seq<Effect>)
    requires IdleConn(s, c)
    requires effects == if plan.Ask? then AfterSigning(cfg.printCert, reply) else AtOnce(plan)
    ensures Answered(cfg, s, c, plan, Follow(cfg, s, c, plan), reply, effects)
  {
  }

  method DataAsEvent(cfg: Config, h: ConnectionHandler, data: string, connection: Option<Socket>,
                     ghost s: SigningSystem.State, ghost c: nat)
    returns (effects: seq<Effect>, ghost asked: SigningSystem.State)
    requires StandsFor(cfg, h, s, c) && h.authMethod.Some?
    requires connection.Some? ==> connection.value.sent == []
    modifies h.client.counter
    modifies if connection.Some? then {connection.value, connection.value.incoming} else {}
    ensures Enabled(cfg, s, ChannelData(c, data)) && asked == Apply(cfg, s, ChannelData(c, data))
    ensures var plan := DataPlan(cfg.ca.formats, s.conns[c].session, data);
            var reply := if plan.Ask? then old(h.Outcome(plan.request, connection)) else Err(ConnectFailed);
            Answered(cfg, Receive(s, c, data), c, plan, asked, reply, effects)
    ensures var user, key := s.conns[c].session.username, cfg.ca.formats.parseKey(data);
            if user.Some? && h.authMethod == Some(Password) && key.Some?
            then asked.ipc.links ==
                 s.ipc.links + [Ipc.Link(Ipc.Client(c, SignCertificate(user.value, key.value)), None, None, None)]
            else asked.ipc == s.ipc
  {
    ghost var plan := DataPlan(cfg.ca.formats, s.conns[c].session, data);
    ghost var reply := if plan.Ask? then h.Outcome(plan.request, connection) else Err(ConnectFailed);
    asked := Apply(cfg, s, ChannelData(c, data));
    effects := h.OnData(data, connection);
    FollowedPlan(cfg, Receive(s, c, data), c, plan, reply, effects);
    DataEventAsks(cfg, s, c, data);
  }

  lemma DataEventAsks(cfg: Config, s: SigningSystem.State, c: nat, data: string)
    requires Enabled(cfg, s, ChannelData(c, data))
    ensures var user, key := s.conns[c].session.username, cfg.ca.formats.parseKey(data);
            var ipc := Apply(cfg, s, ChannelData(c, data)).ipc;
            if user.Some? && s.conns[c].session.authMethod == Some(Password) && key.Some?
            then ipc.links ==
                 s.ipc.links + [Ipc.Link(Ipc.Client(c, SignCertificate(user.value, key.value)), None, None, None)]
            else ipc == s.ipc
  {
    var how := s.conns[c].session.authMethod.value;
    assert how == Password || how == KeyPair;
  }

  method ExecAsEvent(cfg: Config, h: ConnectionHandler, command: string, connection: Option<Socket>,
                     ghost s: SigningSystem.State, ghost c: nat)
    returns (effects: seq<Effect>, ghost asked: SigningSystem.State)
    requires StandsFor(cfg, h, s, c) && h.authMethod.Some?
    requires connection.Some? ==> connection.value.sent == []
    modifies h.client.counter
    modifies if connection.Some? then {connection.value, connection.value.incoming} else {}
    ensures Enabled(cfg, s, ExecRequest(c, command)) && asked == Apply(cfg, s, ExecRequest(c, command))
    ensures var plan := ExecPlan(cfg.ca.formats, s.conns[c].session, command);
            var reply := if plan.Ask? then old(h.Outcome(plan.request, connection)) else Err(ConnectFailed);
            Answered(cfg, s, c, plan, asked, reply, effects)
  {
    ghost var plan := ExecPlan(cfg.ca.formats, s.conns[c].session, command);
    ghost var reply := if plan.Ask? then h.Outcome(plan.request, connection) else Err(ConnectFailed);
    asked := Apply(cfg, s, ExecRequest(c, command));
    effects := h.OnExec(command, connection);
    FollowedPlan(cfg, s, c, plan, reply, effects);
  }

  /** A login attempt with a key: the request goes out, and whenever its answer
      comes in, the connection is in the handler's state, with a login exactly if
      the attempt is accepted. */
  method KeyAsEvent(cfg: Config, h: ConnectionHandler, user: string, key: PublicKey, connection: Option<Socket>,
                    ghost s: SigningSystem.State, ghost c: nat)
    returns (r: AuthOutcome, ghost asked: SigningSystem.State)
    requires StandsFor(cfg, h, s, c) && h.authMethod == None
    requires KeyCheckRequest(cfg.ca.formats, key).Some?
    requires connection.Some? ==> connection.value.sent == []
    modifies h, h.client.counter
    modifies if connection.Some? then {connection.value, connection.value.incoming} else {}
    ensures Enabled(cfg, s, KeyAttempt(c, key)) && asked == Apply(cfg, s, KeyAttempt(c, key))
    ensures r == Accept ==> h.username.Some?
    ensures var request := KeyCheckRequest(cfg.ca.formats, key).value;
            var reply := old(h.Outcome(request, connection));
            && asked.ipc.links == s.ipc.links + [Ipc.Link(Ipc.Client(c, request), None, None, None)]
            && forall later :: StillWaits(asked, c, later) ==>
                 && Deliver(cfg, later, c, reply).conns[c] == Conn(h.State(), if r == Panic then Panicked else Idle)
                 && Deliver(cfg, later, c, reply).logins == later.logins +
                    (if r == Accept then [KeyLogin(c, h.username.value, key)] else [])
  {
    asked := Apply(cfg, s, KeyAttempt(c, key));
    r := h.AuthPublicKey(user, key, connection);
  }

  /** A login attempt with a password is one event. */
  method PasswordAsEvent(cfg: Config, h: ConnectionHandler, user: string, answers: seq<PamAnswer>,
                         ghost s: SigningSystem.State, ghost c: nat)
    returns (r: AuthOutcome, ghost s': SigningSystem.State)
    requires StandsFor(cfg, h, s, c) && h.authMethod == None
    modifies h
    ensures Enabled(cfg, s, PasswordAttempt(c, user, answers)) && s' == Apply(cfg, s, PasswordAttempt(c, user, answers))
    ensures StandsFor(cfg, h, s', c)
    ensures |s'.logins| == |s.logins| + (if r == Accept then 1 else 0)
  {
    s' := Apply(cfg, s, PasswordAttempt(c, user, answers));
    r := h.AuthPassword(user, answers);
  }
}
