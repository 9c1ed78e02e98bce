/** One SSH connection: how it authenticates, and which requests to the CA its
    authenticated state permits. */
module ConnectionHandlers {
  import opened Base
  import opened Protocol
  import opened HostInventory
  import opened Paths
  import opened Usernames
  import opened ExecCommand
  import opened CaClients

  datatype AuthMethod = Password | KeyPair

  datatype Session = Session(username: Option<string>, authMethod: Option<AuthMethod>, publicKey: Option<PublicKey>)

  const FRESH := Session(None, None, None)

  // ----- authentication -----

  datatype AuthVerdict = Yes | No | Failed

  /** What the operating system says about one login attempt: the account's UID,
      if the name is known, and PAM's verdict. */
  datatype PamAnswer = PamAnswer(uid: Option<nat>, login: AuthVerdict)

  /** The PAM authenticator refuses root and system accounts before asking PAM. */
  function PamAuthenticate(user: string, answer: PamAnswer): AuthVerdict {
    if user == "root" then Failed
    else if answer.uid.Some? && answer.uid.value < 1000 then Failed
    else answer.login
  }

  datatype AuthOutcome = Accept | Reject | RequestDenied | Panic

  /** `answers` has one entry for each configured authenticator. */
  predicate SomeoneAccepts(user: string, answers: seq<PamAnswer>) {
    exists i :: 0 <= i < |answers| && PamAuthenticate(user, answers[i]) == Yes
  }

  function AfterPassword(s: Session, user: string, answers: seq<PamAnswer>): (Session, AuthOutcome) {
    if !ValidateUsername(user) then (s, Reject)
    else if SomeoneAccepts(user, answers) then (s.(username := Some(user), authMethod := Some(Password)), Accept)
    else (s, RequestDenied)
  }

  /** The request that checks a presented key. The key goes through its text form;
      without one the original panics. */
  function KeyCheckRequest(f: Formats, key: PublicKey): Option<CaRequest> {
    match f.printKey(key)
    case None => None
    case Some(text) =>
      match f.parseKey(text)
      case None => None
      case Some(key') => Some(CheckPublicKey(key'))
  }

  function AfterKeyCheck(s: Session, key: PublicKey, reply: Result<CaResponse, SendError>): (Session, AuthOutcome) {
    match reply
    case Ok(SignedCertificate(_)) => (s, Panic)
    case Ok(KeyFound(Some(host))) => (Session(Some(host), Some(KeyPair), Some(key)), Accept)
    case _ => (s, Reject)
  }

  // ----- requests of an authenticated connection -----

  datatype Plan =
    | Deny
    | Disconnect(message: string)
    | Ask(request: CaRequest)
    | Crash

  /** Channel data is taken for a user key to be signed. */
  function DataPlan(f: Formats, s: Session, data: string): Plan {
    if s.username == None then Crash
    else if s.authMethod == Some(KeyPair) then
      Disconnect("Public key authenticated users can only request host certificates.")
    else
      match f.parseKey(data)
      case None => Disconnect("failed to read openssh public key")
      case Some(key) => Ask(SignCertificate(s.username.value, key))
  }

  /** Only `sign_host_key` is known; host name and key come from the session, the
      words behind the command are not used. */
  function ExecPlan(f: Formats, s: Session, command: string): Plan {
    var name := ParseExecCommand(command).0;
    if s.publicKey == None || f.printKey(s.publicKey.value) == None || s.username == None then Deny
    else if name != "sign_host_key" then Disconnect("Unknown command: " + name)
    else if !ValidateHostname(s.username.value) then Disconnect("invalid host name: '" + s.username.value + "'")
    else
      match f.parseKey(f.printKey(s.publicKey.value).value)
      case None => Disconnect("failed to read openssh public key")
      case Some(key) => Ask(SignHostCertificate(s.username.value, key))
  }

  datatype Effect =
    | Disconnected(message: string)
    | Data(text: string)
    | ExitStatus(status: nat)
    | Eof
    | Close
    | Crashed

  /** What the client sees of a plan before the CA is asked. */
  function AtOnce(plan: Plan): seq<Effect> {
    match plan
    case Deny => []
    case Disconnect(message) => [Disconnected(message)]
    case Crash => [Effect.Crashed]
    case Ask(_) => []
  }

  /** What the client sees once its signing request has been answered. */
  function AfterSigning(printCert: Certificate -> Option<string>, reply: Result<CaResponse, SendError>): seq<Effect> {
    match reply
    case Ok(SignedCertificate(cert)) =>
      (match printCert(cert)
       case None => [Disconnected("failed to convert cert to openssh format")]
       case Some(text) => [Data(text), ExitStatus(0), Eof, Close])
    case Ok(Error(message)) => [Disconnected("CA server error: " + message)]
    case Ok(KeyFound(_)) => [Crashed]
    case Err(_) => [Disconnected("Failed to send request to CA server")]
  }

  /** Data reaches the client exactly for a certificate that prints, followed by
      success, end of data and close, in this order; the crash branch is taken
      exactly for a key-check answer; everything else is one disconnect. */
  lemma DataOnlyForACertificate(printCert: Certificate -> Option<string>, reply: Result<CaResponse, SendError>,
                                text: string)
    ensures var effects := AfterSigning(printCert, reply);
            && (Data(text) in effects <==>
                  reply.Ok? && reply.value.SignedCertificate? && printCert(reply.value.cert) == Some(text))
            && (Data(text) in effects ==> effects == [Data(text), ExitStatus(0), Eof, Close])
            && (Effect.Crashed in effects <==> reply.Ok? && reply.value.KeyFound?)
            && ((forall t :: Data(t) !in effects) && Effect.Crashed !in effects ==>
                  |effects| == 1 && effects[0].Disconnected?)
  {
    match reply
    case Ok(SignedCertificate(cert)) =>
      match printCert(cert) {
        case None =>
        case Some(t) => assert AfterSigning(printCert, reply)[0] == Data(t);
      }
    case Ok(Error(_)) =>
    case Ok(KeyFound(_)) =>
    case Err(_) =>
  }

  // ----- the connection invariant -----

  /** The user name comes with its method, the key with the key method. */
  predicate Coherent(s: Session) {
    && (s.username.Some? <==> s.authMethod.Some?)
    && (s.publicKey.Some? <==> s.authMethod == Some(KeyPair))
  }

  datatype AuthEvent =
    | TryPassword(user: string, answers: seq<PamAnswer>)
    | TryKey(key: PublicKey, reply: Result<CaResponse, SendError>)

  function Authenticate(s: Session, e: AuthEvent): (Session, AuthOutcome) {
    match e
    case TryPassword(user, answers) => AfterPassword(s, user, answers)
    case TryKey(key, reply) => AfterKeyCheck(s, key, reply)
  }

  /** A connection over its life. Once it is authenticated, further attempts are
      no longer delivered (section 5.1 of RFC 4252). */
  function Live(s: Session, es: seq<AuthEvent>): Session
    decreases es
  {
    if es == [] then s
    else Live(if s.authMethod.Some? then s else Authenticate(s, es[0]).0, es[1..])
  }

  lemma FailureChangesNothing(s: Session, e: AuthEvent)
    ensures Authenticate(s, e).1 != Accept ==> Authenticate(s, e).0 == s
    ensures Authenticate(s, e).1 == Accept ==>
              Authenticate(s, e).0.authMethod.Some? && Authenticate(s, e).0.username.Some?
  {
  }

  lemma {:induction false} AuthenticatedForGood(s: Session, es: seq<AuthEvent>)
    requires s.authMethod.Some?
    ensures Live(s, es) == s
    decreases es
  {
    if es != [] {
      AuthenticatedForGood(s, es[1..]);
    }
  }

  lemma {:induction false} AlwaysCoherent(s: Session, es: seq<AuthEvent>)
    requires Coherent(s)
    ensures Coherent(Live(s, es))
    decreases es
  {
    if es != [] {
      AlwaysCoherent(if s.authMethod.Some? then s else Authenticate(s, es[0]).0, es[1..]);
    }
  }

  lemma {:induction false} LiveSplits(s: Session, a: seq<AuthEvent>, b: seq<AuthEvent>)
    ensures Live(s, a + b) == Live(Live(s, a), b)
    decreases a
  {
    if a == [] {
      assert a + b == b;
    } else {
      assert (a + b)[1..] == a[1..] + b;
      LiveSplits(if s.authMethod.Some? then s else Authenticate(s, a[0]).0, a[1..], b);
    }
  }

  lemma PlansFollowTheMethod(f: Formats, s: Session, data: string, command: string)
    requires Coherent(s)
    ensures DataPlan(f, s, data).Ask? ==> s.authMethod == Some(Password)
    ensures ExecPlan(f, s, command).Ask? ==> s.authMethod == Some(KeyPair)
    ensures s.authMethod.Some? ==> DataPlan(f, s, data) != Crash
  {
    if s.authMethod.Some? {
      assert s.authMethod.value == Password || s.authMethod.value == KeyPair;
    }
  }

  /** One connection asks for user certificates or for host certificates, never
      for both, and always under one name: whatever it asks at two moments of its
      life is of one kind. A connection that logged in never crashes on data. */
  lemma OneConnectionOneKind(f: Formats, before: seq<AuthEvent>, between: seq<AuthEvent>, data: string, command: string)
    ensures var early, late := Live(FRESH, before), Live(FRESH, before + between);
            && Coherent(early) && Coherent(late)
            && (early.authMethod.Some? ==> early == late)
            && !(DataPlan(f, early, data).Ask? && ExecPlan(f, late, command).Ask?)
            && !(ExecPlan(f, early, command).Ask? && DataPlan(f, late, data).Ask?)
            && (DataPlan(f, early, data).Ask? ==> early.authMethod == Some(Password))
            && (ExecPlan(f, early, command).Ask? ==> early.authMethod == Some(KeyPair))
            && (early.authMethod.Some? ==> DataPlan(f, early, data) != Crash)
  {
    AlwaysCoherent(FRESH, before);
    AlwaysCoherent(FRESH, before + between);
    PlansFollowTheMethod(f, Live(FRESH, before), data, command);
    PlansFollowTheMethod(f, Live(FRESH, before + between), data, command);
    LiveSplits(FRESH, before, between);
    if Live(FRESH, before).authMethod.Some? {
      AuthenticatedForGood(Live(FRESH, before), between);
    }
  }

  /** Without that delivery rule the invariant would break exactly when a
      connection with a key logs in again with a password. */
  lemma ReauthenticationBreaksCoherence(s: Session, e: AuthEvent)
    requires Coherent(s) && Authenticate(s, e).1 == Accept
    ensures Coherent(Authenticate(s, e).0) <==> !(e.TryPassword? && s.authMethod == Some(KeyPair))
  {
  }

  /** What channel data makes a connection ask for: a certificate for its own name, on
      exactly the key that was sent, and nothing unless the data is a key. */
  lemma DataAsksForTheSentKey(f: Formats, s: Session, data: string, request: CaRequest)
    ensures DataPlan(f, s, data) == Ask(request) <==>
            && request.SignCertificate?
            && s.username == Some(request.user) && s.authMethod != Some(KeyPair)
            && f.parseKey(data) == Some(request.publicKey)
  {
  }

  /** Whatever stands around the command name, however it is spaced, never changes
      what is asked of the CA. */
  lemma ExecArgumentsAreIgnored(f: Formats, s: Session, gap: string, name: string, rest: string)
    requires Begins(IsSpace, gap + (name + rest), gap, name, rest)
    ensures ExecPlan(f, s, gap + (name + rest)) == ExecPlan(f, s, name)
  {
    CommandNameExactly(gap + (name + rest), name);
    WordAlone(name);
  }

  lemma WordAlone(name: string)
    requires name != "" && SpaceFree(IsSpace, name)
    ensures ParseExecCommand(name).0 == name
  {
    assert name == "" + (name + "");
    assert Begins(IsSpace, name, "", name, "");
    CommandNameExactly(name, name);
  }

  /** A host certificate is requested only by a connection with a key, for the
      command `sign_host_key`, under a name that is safe as a file name: at the CA
      it can hit the traversal check only through a symbolic link of that name. */
  lemma ExecAsksForSafeNamesOnly(f: Formats, s: Session, command: string, inv: Inventory, base: Path)
    requires ExecPlan(f, s, command).Ask?
    requires Canonicalize(inv.fs, inv.root) == Some(base) && Lookup(inv.fs, base) == Some(Directory)
    ensures ParseExecCommand(command).0 == "sign_host_key" && s.publicKey.Some?
    ensures ExecPlan(f, s, command).request.SignHostCertificate?
    ensures var host := ExecPlan(f, s, command).request.hostName;
            var entry := Lookup(inv.fs, base + [host + ".toml"]);
            && s.username == Some(host) && ValidateHostname(host)
            && (SigningPlace(inv, host) == Err(Traversal) ==> entry.Some? && entry.value.Symlink?)
            && (entry.Some? && entry.value.File? ==> SigningPlace(inv, host) == Ok(base + [host + ".toml"]))
  {
    DefencesAgree(inv.fs, inv.root, s.username.value);
  }

  // ----- the handler object -----

  class ConnectionHandler {
    const client: CaClient
    const formats: Formats
    const printCert: Certificate -> Option<string>
    var username: Option<string>
    var authMethod: Option<AuthMethod>
    var publicKey: Option<PublicKey>

    ghost function State(): Session
      reads this
    {
      Session(username, authMethod, publicKey)
    }

    constructor (client: CaClient, formats: Formats, printCert: Certificate -> Option<string>)
      ensures this.client == client && this.formats == formats && this.printCert == printCert
      ensures State() == FRESH
    {
      this.client, this.formats, this.printCert := client, formats, printCert;
      username, authMethod, publicKey := None, None, None;
    }

    /** Asks the authenticators in turn, until one accepts: none does for root, for a
        system account, or without PAM's consent. */
    method AuthPassword(user: string, answers: seq<PamAnswer>) returns (r: AuthOutcome)
      modifies this
      ensures (State(), r) == AfterPassword(old(State()), user, answers)
      ensures r == Accept <==>
              && ValidateUsername(user) && user != "root"
              && exists i :: 0 <= i < |answers| && answers[i].login == Yes
                             && (answers[i].uid.Some? ==> answers[i].uid.value >= 1000)
      ensures r == Reject <==> !ValidateUsername(user)
      ensures r in {Accept, Reject, RequestDenied}
      ensures r == Accept ==> State() == old(State()).(username := Some(user), authMethod := Some(Password))
      ensures r != Accept ==> State() == old(State())
    {
      if !ValidateUsername(user) {
        return Reject;
      }
      for i := 0 to |answers|
        invariant State() == old(State())
        invariant forall j :: 0 <= j < i ==> PamAuthenticate(user, answers[j]) != Yes
      {
        if PamAuthenticate(user, answers[i]) == Yes {
          username := Some(user);
          authMethod := Some(Password);
          return Accept;
        }
      }
      return RequestDenied;
    }

    /** Accepts a key that the CA finds in its inventory, under the host name that
        the CA answers. Whatever `user` the client logs in with, the result is the
        same. */
    method AuthPublicKey(user: string, key: PublicKey, connection: Option<Socket>) returns (r: AuthOutcome)
      requires connection.Some? ==> connection.value.sent == []
      modifies this, client.counter
      modifies if connection.Some? then {connection.value, connection.value.incoming} else {}
      ensures KeyCheckRequest(formats, key) == None ==> r == Panic && State() == old(State())
      ensures KeyCheckRequest(formats, key).Some? ==>
                var reply := old(Outcome(KeyCheckRequest(formats, key).value, connection));
                (State(), r) == AfterKeyCheck(old(State()), key, reply)
    {
      var request := KeyCheckRequest(formats, key);
      if request == None {
        return Panic;
      }
      var reply := client.SendRequest(connection, request.value);
      match reply {
        case Err(_) => return Reject;
        case Ok(SignedCertificate(_)) => return Panic;
        case Ok(Error(_)) => return Reject;
        case Ok(KeyFound(found)) =>
          if found == None {
            return Reject;
          }
          username := found;
          authMethod := Some(KeyPair);
          publicKey := Some(key);
          return Accept;
      }
    }

    /** What `SendRequest` will return over this connection. */
    ghost function Outcome(request: CaRequest, connection: Option<Socket>): Result<CaResponse, SendError>
      reads client.counter
      reads if connection.Some? then {connection.value, connection.value.incoming} else {}
    {
      match connection
      case None => Err(ConnectFailed)
      case Some(s) => Exchange(client.codec, client.token, client.counter.value, request, s.room, s.incoming.Pending())
    }

    /** What the client sees of a plan; the CA is asked over `connection`. */
    ghost function Effects(plan: Plan, connection: Option<Socket>): seq<Effect>
      reads client.counter
      reads if connection.Some? then {connection.value, connection.value.incoming} else {}
    {
      if plan.Ask? then AfterSigning(printCert, Outcome(plan.request, connection)) else AtOnce(plan)
    }

    /** The CA was asked for `request`: a ticket is drawn if there is a connection,
        and what that takes of the request's bytes is on it. */
    twostate predicate Asked(request: CaRequest, connection: Option<Socket>)
      reads client.counter
      reads if connection.Some? then {connection.value} else {}
    {
      && client.counter.value ==
         (if connection.Some? then Bump(old(client.counter.value)) else old(client.counter.value))
      && (connection.Some? ==>
            var bytes := ClientBytes(client.codec, client.token, old(client.counter.value), request);
            connection.value.sent ==
              if |bytes| <= old(connection.value.room) then bytes else bytes[..old(connection.value.room)])
    }

    /** The CA was not asked for anything. */
    twostate predicate NotAsked(connection: Option<Socket>)
      reads client.counter
      reads if connection.Some? then {connection.value} else {}
    {
      && client.counter.value == old(client.counter.value)
      && (connection.Some? ==> connection.value.sent == old(connection.value.sent))
    }

    method SendSignRequest(request: CaRequest, connection: Option<Socket>) returns (effects: seq<Effect>)
      requires connection.Some? ==> connection.value.sent == []
      modifies client.counter
      modifies if connection.Some? then {connection.value, connection.value.incoming} else {}
      ensures effects == AfterSigning(printCert, old(Outcome(request, connection)))
      ensures Asked(request, connection)
    {
      var reply := client.SendRequest(connection, request);
      match reply {
        case Err(_) => effects := [Disconnected("Failed to send request to CA server")];
        case Ok(Error(message)) => effects := [Disconnected("CA server error: " + message)];
        case Ok(KeyFound(_)) => effects := [Effect.Crashed];
        case Ok(SignedCertificate(cert)) => effects := SendCertAndClose(cert);
      }
    }

    method SendCertAndClose(cert: Certificate) returns (effects: seq<Effect>)
      ensures effects == AfterSigning(printCert, Ok(SignedCertificate(cert)))
    {
      var text := printCert(cert);
      if text == None {
        return [Disconnected("failed to convert cert to openssh format")];
      }
      effects := [Data(text.value)];
      effects := effects + [ExitStatus(0)];
      effects := effects + [Eof];
      effects := effects + [Close];
    }

    method OnData(data: string, connection: Option<Socket>) returns (effects: seq<Effect>)
      requires connection.Some? ==> connection.value.sent == []
      modifies client.counter
      modifies if connection.Some? then {connection.value, connection.value.incoming} else {}
      ensures effects == old(Effects(DataPlan(formats, State(), data), connection))
      ensures username == None ==> effects == [Effect.Crashed] && NotAsked(connection)
      ensures username.Some? && authMethod == Some(KeyPair) ==>
                NotAsked(connection)
                && effects == [Disconnected("Public key authenticated users can only request host certificates.")]
      ensures username.Some? && authMethod != Some(KeyPair) && formats.parseKey(data) == None ==>
                NotAsked(connection) && effects == [Disconnected("failed to read openssh public key")]
      ensures username.Some? && authMethod != Some(KeyPair) && formats.parseKey(data).Some? ==>
                var request := SignCertificate(username.value, formats.parseKey(data).value);
                Asked(request, connection) && effects == AfterSigning(printCert, old(Outcome(request, connection)))
    {
      if username == None {
        return [Effect.Crashed];
      }
      if authMethod == Some(KeyPair) {
        return [Disconnected("Public key authenticated users can only request host certificates.")];
      }
      var key := formats.parseKey(data);
      if key == None {
        return [Disconnected("failed to read openssh public key")];
      }
      effects := SendSignRequest(SignCertificate(username.value, key.value), connection);
    }

    method OnExec(command: string, connection: Option<Socket>) returns (effects: seq<Effect>)
      requires connection.Some? ==> connection.value.sent == []
      modifies client.counter
      modifies if connection.Some? then {connection.value, connection.value.incoming} else {}
      ensures effects == old(Effects(ExecPlan(formats, State(), command), connection))
      ensures publicKey == None || formats.printKey(publicKey.value) == None || username == None ==>
                NotAsked(connection) && effects == []
      ensures publicKey.Some? && formats.printKey(publicKey.value).Some? && username.Some? ==>
                var name, host := ParseExecCommand(command).0, username.value;
                var key := formats.parseKey(formats.printKey(publicKey.value).value);
                if name != "sign_host_key" then
                  NotAsked(connection) && effects == [Disconnected("Unknown command: " + name)]
                else if !ValidateHostname(host) then
                  NotAsked(connection) && effects == [Disconnected("invalid host name: '" + host + "'")]
                else if key == None then
                  NotAsked(connection) && effects == [Disconnected("failed to read openssh public key")]
                else
                  var request := SignHostCertificate(host, key.value);
                  Asked(request, connection) && effects == AfterSigning(printCert, old(Outcome(request, connection)))
    {
      var (name, _) := ParseExecCommand(command);
      if publicKey == None {
        return [];
      }
      var text := formats.printKey(publicKey.value);
      if text == None || username == None {
        return [];
      }
      if name != "sign_host_key" {
        return [Disconnected("Unknown command: " + name)];
      }
      var host := username.value;
      if !ValidateHostname(host) {
        return [Disconnected("invalid host name: '" + host + "'")];
      }
      var key := formats.parseKey(text.value);
      if key == None {
        return [Disconnected("failed to read openssh public key")];
      }
      effects := SendSignRequest(SignHostCertificate(host, key.value), connection);
    }
  }
}
