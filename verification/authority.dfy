/** The certificate authority: what it signs, for whom, and with which content. */
module Authority {
  import opened Base
  import opened Protocol
  import opened Paths
  import opened HostInventory
  import opened UserDefaultsReader
  import opened KeyIds
  import opened Validity
  import opened Text

  /** When the certificate builder accepts a value; kept abstract. */
  datatype BuilderRules = BuilderRules(
    start: (PublicKey, u64, u64) -> bool,
    keyId: string -> bool,
    principal: (seq<string>, string) -> bool,
    comment: string -> bool,
    extension: (seq<string>, string) -> bool,
    sign: Certificate -> bool)

  datatype Ca = Ca(formats: Formats, templates: TemplateFormats, rules: BuilderRules)

  /** The files as one request sees them. */
  datatype World = World(inventory: Inventory, users: UserFiles)

  /** The two clock readings of one signing. */
  datatype Clock = Clock(first: u64, second: u64)

  datatype SignError =
    | NoDefaults(defaults: DefaultsError)
    | NoHostConfig(config: LookupError)
    | WrongPublicKey(host: string)
    | BuilderRefused

  // ----- the builder -----

  /** Principals the builder refuses are left out. */
  function KeptPrincipals(rules: BuilderRules, kept: seq<string>, todo: seq<string>): seq<string>
    decreases todo
  {
    if todo == [] then kept
    else KeptPrincipals(rules, if rules.principal(kept, todo[0]) then kept + [todo[0]] else kept, todo[1..])
  }

  /** An extension the builder refuses ends the signing. */
  predicate AcceptsExtensions(rules: BuilderRules, added: seq<string>, todo: seq<string>)
    decreases todo
  {
    todo == [] || (rules.extension(added, todo[0]) && AcceptsExtensions(rules, added + [todo[0]], todo[1..]))
  }

  /** What is asked of the builder. */
  datatype Order = Order(
    kind: CertKind,
    name: string,
    key: PublicKey,
    principals: seq<string>,
    extensions: seq<string>,
    days: u16)

  function Draft(rules: BuilderRules, o: Order, clock: Clock): Certificate {
    Certificate(o.kind, o.key.keyData, KeyId(o.kind, o.name, clock.first),
                KeptPrincipals(rules, [], o.principals), o.extensions, o.key.comment,
                clock.first, ValidBefore(clock.second, o.days))
  }

  function Certify(rules: BuilderRules, o: Order, clock: Clock): Result<Certificate, SignError> {
    var draft := Draft(rules, o, clock);
    if && rules.start(o.key, draft.validAfter, draft.validBefore)
       && rules.keyId(draft.keyId)
       && rules.comment(draft.comment)
       && AcceptsExtensions(rules, [], o.extensions)
       && rules.sign(draft)
    then Ok(draft)
    else Err(BuilderRefused)
  }

  class CertBuilder {
    const rules: BuilderRules
    const kind: CertKind
    const key: PublicKey
    const validAfter: u64
    const validBefore: u64
    var keyId: string
    var principals: seq<string>
    var extensions: seq<string>
    var comment: string

    constructor (rules: BuilderRules, kind: CertKind, key: PublicKey, validAfter: u64, validBefore: u64)
      ensures this.rules == rules && this.kind == kind && this.key == key
      ensures this.validAfter == validAfter && this.validBefore == validBefore
      ensures principals == [] && extensions == []
    {
      this.rules, this.kind, this.key := rules, kind, key;
      this.validAfter, this.validBefore := validAfter, validBefore;
      keyId, principals, extensions, comment := "", [], [], "";
    }

    method ValidPrincipal(principal: string) returns (ok: bool)
      modifies this`principals
      ensures ok == rules.principal(old(principals), principal)
      ensures principals == if ok then old(principals) + [principal] else old(principals)
    {
      ok := rules.principal(principals, principal);
      if ok {
        principals := principals + [principal];
      }
    }

    method Extension(name: string) returns (ok: bool)
      modifies this`extensions
      ensures ok == rules.extension(old(extensions), name)
      ensures extensions == if ok then old(extensions) + [name] else old(extensions)
    {
      ok := rules.extension(extensions, name);
      if ok {
        extensions := extensions + [name];
      }
    }

    method AddPrincipals(all: seq<string>)
      modifies this`principals
      ensures principals == KeptPrincipals(rules, old(principals), all)
      ensures old(principals) == [] ==> Chosen(rules, all, principals)
    {
      ChosenExactly(rules, all, KeptPrincipals(rules, [], all));
      for i := 0 to |all|
        invariant KeptPrincipals(rules, principals, all[i..]) == KeptPrincipals(rules, old(principals), all)
      {
        assert all[i..][1..] == all[i + 1..];
        var _ := ValidPrincipal(all[i]);
      }
    }

    method AddExtensions(all: seq<string>) returns (ok: bool)
      modifies this`extensions
      ensures ok == AcceptsExtensions(rules, old(extensions), all)
      ensures ok <==> forall i :: 0 <= i < |all| ==> rules.extension(old(extensions) + all[..i], all[i])
      ensures ok ==> extensions == old(extensions) + all
    {
      ExtensionsExactly(rules, extensions, all);
      for i := 0 to |all|
        invariant AcceptsExtensions(rules, extensions, all[i..]) == AcceptsExtensions(rules, old(extensions), all)
        invariant extensions == old(extensions) + all[..i]
      {
        assert all[i..][1..] == all[i + 1..] && all[..i] + [all[i]] == all[..i + 1];
        assert old(extensions) + all[..i] + [all[i]] == old(extensions) + (all[..i] + [all[i]]);
        var accepted := Extension(all[i]);
        if !accepted {
          return false;
        }
      }
      assert all[..|all|] == all;
      return true;
    }

    method Sign() returns (r: Result<Certificate, SignError>)
      ensures var cert :=
                Certificate(kind, key.keyData, keyId, principals, extensions, comment, validAfter, validBefore);
              r == if rules.sign(cert) then Ok(cert) else Err(BuilderRefused)
    {
      var cert := Certificate(kind, key.keyData, keyId, principals, extensions, comment, validAfter, validBefore);
      r := if rules.sign(cert) then Ok(cert) else Err(BuilderRefused);
    }
  }

  /** The common tail of both signing operations: yields a certificate exactly if it
      is the one ordered and the builder accepts every part of it and signs it. */
  method BuildCertificate(rules: BuilderRules, o: Order, clock: Clock) returns (r: Result<Certificate, SignError>)
    ensures r == Certify(rules, o, clock)
    ensures forall cert :: r == Ok(cert) <==> Fulfils(rules, o, clock, cert)
    ensures r.Err? ==> r == Err(BuilderRefused)
  {
    forall cert
      ensures Certify(rules, o, clock) == Ok(cert) <==> Fulfils(rules, o, clock, cert)
    {
      CertifiedExactly(rules, o, clock, cert);
    }
    var validBefore := ValidBefore(clock.second, o.days);
    if !rules.start(o.key, clock.first, validBefore) {
      return Err(BuilderRefused);
    }
    var builder := new CertBuilder(rules, o.kind, o.key, clock.first, validBefore);
    builder.keyId := KeyId(o.kind, o.name, clock.first);
    if !rules.keyId(builder.keyId) {
      return Err(BuilderRefused);
    }
    builder.AddPrincipals(o.principals);
    builder.comment := o.key.comment;
    if !rules.comment(builder.comment) {
      return Err(BuilderRefused);
    }
    var ok := builder.AddExtensions(o.extensions);
    if !ok {
      return Err(BuilderRefused);
    }
    assert [] + o.extensions == o.extensions;
    r := builder.Sign();
  }

  // ----- what a certificate says -----

  /** `a` is `b` with some elements left out. */
  predicate Subsequence(a: seq<string>, b: seq<string>)
    decreases b
  {
    a == [] || (b != [] && (Subsequence(a, b[1..]) || (a[0] == b[0] && Subsequence(a[1..], b[1..]))))
  }

  lemma {:induction false} KeptIsSubsequence(rules: BuilderRules, kept: seq<string>, todo: seq<string>)
    ensures kept <= KeptPrincipals(rules, kept, todo)
    ensures Subsequence(KeptPrincipals(rules, kept, todo)[|kept|..], todo)
    ensures (forall acc, p :: rules.principal(acc, p)) ==> KeptPrincipals(rules, kept, todo) == kept + todo
    decreases todo
  {
    if todo != [] {
      var next := if rules.principal(kept, todo[0]) then kept + [todo[0]] else kept;
      KeptIsSubsequence(rules, next, todo[1..]);
      var all := KeptPrincipals(rules, kept, todo);
      if next != kept {
        assert all[|kept|..][0] == todo[0] && all[|kept|..][1..] == all[|next|..];
        assert kept + [todo[0]] + todo[1..] == kept + todo;
      }
    }
  }

  /** The builder is offered one principal after the other, starting from `kept`, and
      takes each one or leaves it. */
  ghost predicate Taken(rules: BuilderRules, kept: seq<string>, offered: seq<string>, states: seq<seq<string>>) {
    && |states| == |offered| + 1 && states[0] == kept
    && forall i :: 0 <= i < |offered| ==>
         states[i + 1] == if rules.principal(states[i], offered[i]) then states[i] + [offered[i]] else states[i]
  }

  /** `chosen` are exactly those offered principals that the builder takes. */
  ghost predicate Chosen(rules: BuilderRules, offered: seq<string>, chosen: seq<string>) {
    exists states :: Taken(rules, [], offered, states) && states[|offered|] == chosen
  }

  lemma {:induction false} TakenIsKept(rules: BuilderRules, kept: seq<string>, offered: seq<string>,
                                       states: seq<seq<string>>)
    requires Taken(rules, kept, offered, states)
    ensures states[|offered|] == KeptPrincipals(rules, kept, offered)
    decreases |offered|
  {
    if offered != [] {
      assert states[0 + 1] == if rules.principal(kept, offered[0]) then kept + [offered[0]] else kept;
      var rest, later := offered[1..], states[1..];
      forall i | 0 <= i < |rest|
        ensures later[i + 1] == if rules.principal(later[i], rest[i]) then later[i] + [rest[i]] else later[i]
      {
        assert later[i] == states[i + 1] && rest[i] == offered[i + 1] && later[i + 1] == states[i + 1 + 1];
      }
      TakenIsKept(rules, states[1], rest, later);
    }
  }

  lemma {:induction false} KeptIsTaken(rules: BuilderRules, kept: seq<string>, offered: seq<string>)
    returns (states: seq<seq<string>>)
    ensures Taken(rules, kept, offered, states) && states[|offered|] == KeptPrincipals(rules, kept, offered)
    decreases |offered|
  {
    if offered == [] {
      states := [kept];
    } else {
      var next := if rules.principal(kept, offered[0]) then kept + [offered[0]] else kept;
      var later := KeptIsTaken(rules, next, offered[1..]);
      states := [kept] + later;
      forall i | 0 <= i < |offered|
        ensures states[i + 1] == if rules.principal(states[i], offered[i]) then states[i] + [offered[i]] else states[i]
      {
        if i > 0 {
          assert offered[1..][i - 1] == offered[i];
        }
      }
    }
  }

  lemma ChosenExactly(rules: BuilderRules, offered: seq<string>, chosen: seq<string>)
    ensures Chosen(rules, offered, chosen) <==> chosen == KeptPrincipals(rules, [], offered)
  {
    var states := KeptIsTaken(rules, [], offered);
    if Chosen(rules, offered, chosen) {
      var other :| Taken(rules, [], offered, other) && other[|offered|] == chosen;
      TakenIsKept(rules, [], offered, other);
    }
  }

  lemma {:induction false} ExtensionsExactly(rules: BuilderRules, added: seq<string>, todo: seq<string>)
    ensures AcceptsExtensions(rules, added, todo) <==>
            forall i :: 0 <= i < |todo| ==> rules.extension(added + todo[..i], todo[i])
    decreases |todo|
  {
    if todo != [] {
      var next, rest := added + [todo[0]], todo[1..];
      ExtensionsExactly(rules, next, rest);
      assert added + todo[..0] == added;
      forall i | 0 < i < |todo|
        ensures added + todo[..i] == next + rest[..i - 1] && rest[i - 1] == todo[i]
      {
        assert todo[..i] == [todo[0]] + rest[..i - 1];
      }
      assert (forall i :: 0 <= i < |rest| ==> rules.extension(next + rest[..i], rest[i])) <==>
             (forall i :: 0 < i < |todo| ==> rules.extension(added + todo[..i], todo[i])) by {
        if forall i :: 0 < i < |todo| ==> rules.extension(added + todo[..i], todo[i]) {
          forall i | 0 <= i < |rest|
            ensures rules.extension(next + rest[..i], rest[i])
          {
            assert added + todo[..i + 1] == next + rest[..i];
          }
        }
      }
    }
  }

  /** The certificate is for this key and this name, and its key ID says so. */
  ghost predicate Identifies(cert: Certificate, kind: CertKind, name: string, key: PublicKey) {
    && cert.kind == kind && cert.keyData == key.keyData && cert.comment == key.comment
    && cert.keyId == (if kind == UserCert then "user-" else "host-") + name + "-" + Decimal(cert.validAfter)
    && ReadKeyId(cert.keyId) == Some((kind, name, cert.validAfter))
  }

  /** The certificate is worth what was configured and no more: all extensions in
      order, exactly the principals that the builder takes, from the first clock
      reading until the configured days after the second, in u64 arithmetic. */
  ghost predicate Authorises(rules: BuilderRules, clock: Clock, cert: Certificate,
                             principals: seq<string>, extensions: seq<string>, days: u16) {
    && Chosen(rules, principals, cert.principals)
    && Subsequence(cert.principals, principals)
    && cert.extensions == extensions
    && cert.validAfter == clock.first
    && cert.validBefore == (if clock.second + days * 86_400 <= U64_MAX then clock.second + days * 86_400
                            else clock.second + days * 86_400 - TWO_TO_64)
  }

  /** The builder accepts every part of the certificate, and signs it. */
  ghost predicate Signable(rules: BuilderRules, key: PublicKey, cert: Certificate) {
    && rules.start(key, cert.validAfter, cert.validBefore)
    && rules.keyId(cert.keyId)
    && rules.comment(cert.comment)
    && (forall i :: 0 <= i < |cert.extensions| ==> rules.extension(cert.extensions[..i], cert.extensions[i]))
    && rules.sign(cert)
  }

  ghost predicate Fulfils(rules: BuilderRules, o: Order, clock: Clock, cert: Certificate) {
    && Identifies(cert, o.kind, o.name, o.key)
    && Authorises(rules, clock, cert, o.principals, o.extensions, o.days)
    && Signable(rules, o.key, cert)
  }

  lemma DraftIsIdentified(o: Order, seconds: u64, cert: Certificate)
    requires cert.validAfter == seconds
    ensures Identifies(cert, o.kind, o.name, o.key) <==>
            && cert.kind == o.kind && cert.keyData == o.key.keyData && cert.comment == o.key.comment
            && cert.keyId == KeyId(o.kind, o.name, seconds)
  {
    KeyIdRoundTrip(o.kind, o.name, seconds);
    KeyIdIsText(o.name, seconds);
  }

  lemma DraftIsOrdered(rules: BuilderRules, o: Order, clock: Clock, cert: Certificate)
    ensures cert == Draft(rules, o, clock) <==>
            && Identifies(cert, o.kind, o.name, o.key)
            && Authorises(rules, clock, cert, o.principals, o.extensions, o.days)
  {
    if cert.validAfter == clock.first {
      DraftIsIdentified(o, clock.first, cert);
    }
    ChosenExactly(rules, o.principals, cert.principals);
    KeptIsSubsequence(rules, [], o.principals);
    var kept := KeptPrincipals(rules, [], o.principals);
    assert kept[0..] == kept;
    ExpiryIsExact(clock.second, o.days);
  }

  /** A certificate comes out exactly if it fulfils the order. */
  lemma CertifiedExactly(rules: BuilderRules, o: Order, clock: Clock, cert: Certificate)
    ensures Certify(rules, o, clock) == Ok(cert) <==> Fulfils(rules, o, clock, cert)
  {
    var draft := Draft(rules, o, clock);
    DraftIsOrdered(rules, o, clock, cert);
    ExtensionsExactly(rules, [], o.extensions);
    assert forall i :: 0 <= i < |o.extensions| ==> [] + o.extensions[..i] == o.extensions[..i];
    assert Signable(rules, o.key, draft) <==> Certify(rules, o, clock) == Ok(draft);
  }

  // ----- the three operations -----

  function UserOrder(user: string, key: PublicKey, d: UserDefaults): Order {
    Order(UserCert, user, key, d.principals, d.extensions, d.validityInDays)
  }

  function HostOrder(host: string, key: PublicKey, config: HostConfig): Order {
    Order(HostCert, host, key, config.hostnames, config.extensions, config.validityInDays)
  }

  function UserCertificateFor(ca: Ca, w: World, clock: Clock, user: string, key: PublicKey)
    : Result<Certificate, SignError>
  {
    match DefaultsFor(ca.templates, w.users, user)
    case Err(e) => Err(NoDefaults(e))
    case Ok(d) => Certify(ca.rules, UserOrder(user, key, d), clock)
  }

  /** The inventory's key for the host, compared with the presented one. */
  function HostCertificateFor(ca: Ca, w: World, clock: Clock, host: string, key: PublicKey)
    : Result<Certificate, SignError>
  {
    match ReadHostConfig(ca.formats, w.inventory, host)
    case Err(e) => Err(NoHostConfig(e))
    case Ok(config) =>
      match ca.formats.parseKey(config.publicKey)
      case None => Err(WrongPublicKey(host))
      case Some(configKey) =>
        if configKey.keyData != key.keyData then Err(WrongPublicKey(host))
        else Certify(ca.rules, HostOrder(host, key, config), clock)
  }

  function HostOfKey(ca: Ca, w: World, publicKey: string): Option<string> {
    match Search(ca.formats, w.inventory, publicKey)
    case None => None
    case Some((host, _)) => Some(host)
  }

  /** A user certificate is for the user and worth what the user's template says, and
      the builder signs it so. */
  ghost predicate UserCertOk(ca: Ca, w: World, clock: Clock, user: string, key: PublicKey, cert: Certificate) {
    && Identifies(cert, UserCert, user, key)
    && Signable(ca.rules, key, cert)
    && exists d :: FromTemplate(ca.templates, w.users, user, d)
                   && Authorises(ca.rules, clock, cert, d.principals, d.extensions, d.validityInDays)
  }

  /** The inventory can be read for `host` and holds this key data there. */
  predicate Holds(f: Formats, inv: Inventory, host: string, keyData: seq<byte>) {
    && ReadHostConfig(f, inv, host).Ok?
    && var key := f.parseKey(ReadHostConfig(f, inv, host).value.publicKey);
       key.Some? && key.value.keyData == keyData
  }

  /** A host certificate is for the host and worth what the host's inventory entry
      says, which holds the same key, and the builder signs it so. */
  ghost predicate HostCertOk(ca: Ca, w: World, clock: Clock, host: string, key: PublicKey, cert: Certificate) {
    && Identifies(cert, HostCert, host, key)
    && Signable(ca.rules, key, cert)
    && Holds(ca.formats, w.inventory, host, key.keyData)
    && var config := ReadHostConfig(ca.formats, w.inventory, host).value;
       Authorises(ca.rules, clock, cert, config.hostnames, config.extensions, config.validityInDays)
  }

  lemma UserCertificateExactly(ca: Ca, w: World, clock: Clock, user: string, key: PublicKey, cert: Certificate)
    ensures UserCertificateFor(ca, w, clock, user, key) == Ok(cert) <==> UserCertOk(ca, w, clock, user, key, cert)
  {
    ReadsAsTheFilesSay(ca.templates, w.users, user);
    var r := DefaultsFor(ca.templates, w.users, user);
    if r.Ok? {
      CertifiedExactly(ca.rules, UserOrder(user, key, r.value), clock, cert);
    }
  }

  lemma HostCertificateExactly(ca: Ca, w: World, clock: Clock, host: string, key: PublicKey, cert: Certificate)
    ensures HostCertificateFor(ca, w, clock, host, key) == Ok(cert) <==> HostCertOk(ca, w, clock, host, key, cert)
  {
    if Holds(ca.formats, w.inventory, host, key.keyData) {
      var config := ReadHostConfig(ca.formats, w.inventory, host).value;
      CertifiedExactly(ca.rules, HostOrder(host, key, config), clock, cert);
    }
  }

  method SignUserKey(ca: Ca, w: World, clock: Clock, user: string, key: PublicKey)
    returns (r: Result<Certificate, SignError>)
    ensures r == UserCertificateFor(ca, w, clock, user, key)
    ensures forall cert :: r == Ok(cert) <==> UserCertOk(ca, w, clock, user, key, cert)
    ensures r.Ok? || r == Err(BuilderRefused) <==> exists d :: FromTemplate(ca.templates, w.users, user, d)
  {
    forall cert
      ensures UserCertificateFor(ca, w, clock, user, key) == Ok(cert) <==> UserCertOk(ca, w, clock, user, key, cert)
    {
      UserCertificateExactly(ca, w, clock, user, key, cert);
    }
    var defaults := ReadUserDefaults(ca.templates, w.users, user);
    if defaults.Err? {
      return Err(NoDefaults(defaults.error));
    }
    r := BuildCertificate(ca.rules, UserOrder(user, key, defaults.value), clock);
  }

  /** The builder is asked exactly if the inventory holds the key under the name. */
  method SignHostKey(ca: Ca, w: World, clock: Clock, host: string, key: PublicKey)
    returns (r: Result<Certificate, SignError>)
    ensures r == HostCertificateFor(ca, w, clock, host, key)
    ensures forall cert :: r == Ok(cert) <==> HostCertOk(ca, w, clock, host, key, cert)
    ensures r.Ok? || r == Err(BuilderRefused) <==> Holds(ca.formats, w.inventory, host, key.keyData)
    ensures r == Err(WrongPublicKey(host)) <==>
            && ReadHostConfig(ca.formats, w.inventory, host).Ok?
            && !Holds(ca.formats, w.inventory, host, key.keyData)
  {
    forall cert
      ensures HostCertificateFor(ca, w, clock, host, key) == Ok(cert) <==> HostCertOk(ca, w, clock, host, key, cert)
    {
      HostCertificateExactly(ca, w, clock, host, key, cert);
    }
    var lookup := ReadHostConfig(ca.formats, w.inventory, host);
    if lookup.Err? {
      return Err(NoHostConfig(lookup.error));
    }
    var config := lookup.value;
    var configKey := ca.formats.parseKey(config.publicKey);
    if configKey == None {
      return Err(WrongPublicKey(host));
    }
    if configKey.value.keyData != key.keyData {
      return Err(WrongPublicKey(host));
    }
    r := BuildCertificate(ca.rules, HostOrder(host, key, config), clock);
  }

  /** A host certificate is signed only for the key that the inventory, at this
      moment, holds under the host's name inside the inventory directory. */
  lemma SignedHostKeyIsTheInventorys(ca: Ca, w: World, clock: Clock, host: string, key: PublicKey)
    requires HostCertificateFor(ca, w, clock, host, key).Ok?
    ensures Holds(ca.formats, w.inventory, host, key.keyData)
    ensures var cert := HostCertificateFor(ca, w, clock, host, key).value;
            && cert.keyData == key.keyData && cert.kind == HostCert
            && Canonicalize(w.inventory.fs, w.inventory.root).Some?
            && SigningPlace(w.inventory, host).Ok?
            && Canonicalize(w.inventory.fs, w.inventory.root).value <= SigningPlace(w.inventory, host).value
  {
    AcceptedPathIsInside(w.inventory.fs, Push(w.inventory.root, host + ".toml"), w.inventory.root);
  }

  // ----- dispatch -----

  function ErrorText(e: SignError): string {
    match e
    case NoDefaults(_) => "no user defaults"
    case NoHostConfig(_) => "no host configuration"
    case WrongPublicKey(host) => "wrong public key for host: " + host
    case BuilderRefused => "certificate builder refused"
  }

  function ToResponse(r: Result<Certificate, SignError>): CaResponse {
    match r
    case Ok(cert) => SignedCertificate(cert)
    case Err(e) => Error(ErrorText(e))
  }

  function Dispatch(ca: Ca, w: World, clock: Clock, request: CaRequest): CaResponse {
    match request
    case SignCertificate(user, key) => ToResponse(UserCertificateFor(ca, w, clock, user, key))
    case SignHostCertificate(host, key) => ToResponse(HostCertificateFor(ca, w, clock, host, key))
    case CheckPublicKey(key) =>
      match ca.formats.printKey(key)
      case None => KeyFound(None)
      case Some(text) => KeyFound(HostOfKey(ca, w, text))
  }

  /** A certificate in a reply is for the key and the name in the request, and
      worth what the files say about that name. */
  ghost predicate CertifiesWhatWasAsked(ca: Ca, w: World, clock: Clock, request: CaRequest, cert: Certificate) {
    match request
    case SignCertificate(user, key) => UserCertOk(ca, w, clock, user, key, cert)
    case SignHostCertificate(host, key) => HostCertOk(ca, w, clock, host, key, cert)
    case CheckPublicKey(_) => false
  }

  /** The first listed file that is usable and holds the key data has this stem. */
  ghost predicate FirstHolder(f: Formats, inv: Inventory, keyData: seq<byte>, host: string) {
    && Canonicalize(inv.fs, inv.root).Some?
    && exists i: nat, config ::
         FirstUsable(f, inv, Canonicalize(inv.fs, inv.root).value, keyData, i, host, config)
  }

  /** The request is a check of a key that prints, and the first file that holds the
      key is this host's. */
  ghost predicate FindsHost(ca: Ca, w: World, request: CaRequest, host: string) {
    && request.CheckPublicKey? && ca.formats.printKey(request.publicKey).Some?
    && FirstHolder(ca.formats, w.inventory, request.publicKey.keyData, host)
  }

  /** A reply has the kind that the caller expects. It is a certificate exactly if
      that certifies what was asked, and a host name exactly if that is the one
      found. */
  lemma DispatchIsRight(ca: Ca, w: World, clock: Clock, request: CaRequest)
    ensures Fits(request, Dispatch(ca, w, clock, request))
    ensures forall cert :: Dispatch(ca, w, clock, request) == SignedCertificate(cert) <==>
                           CertifiesWhatWasAsked(ca, w, clock, request, cert)
    ensures ca.formats.Faithful() ==>
              forall host :: Dispatch(ca, w, clock, request) == KeyFound(Some(host)) <==>
                             FindsHost(ca, w, request, host)
  {
    forall cert
      ensures Dispatch(ca, w, clock, request) == SignedCertificate(cert) <==>
              CertifiesWhatWasAsked(ca, w, clock, request, cert)
    {
      match request
      case SignCertificate(user, key) => UserCertificateExactly(ca, w, clock, user, key, cert);
      case SignHostCertificate(host, key) => HostCertificateExactly(ca, w, clock, host, key, cert);
      case CheckPublicKey(_) =>
    }
    if ca.formats.Faithful() {
      forall host
        ensures Dispatch(ca, w, clock, request) == KeyFound(Some(host)) <==> FindsHost(ca, w, request, host)
      {
        if request.CheckPublicKey? && ca.formats.printKey(request.publicKey).Some? {
          HostIsFirstHolder(ca, w, request.publicKey, host);
        }
      }
    }
  }

  lemma HostIsFirstHolder(ca: Ca, w: World, key: PublicKey, host: string)
    requires ca.formats.Faithful() && ca.formats.printKey(key).Some?
    ensures HostOfKey(ca, w, ca.formats.printKey(key).value) == Some(host) <==>
            FirstHolder(ca.formats, w.inventory, key.keyData, host)
  {
    var f, inv, text := ca.formats, w.inventory, ca.formats.printKey(key).value;
    if Canonicalize(inv.fs, inv.root).Some? {
      var base := Canonicalize(inv.fs, inv.root).value;
      SearchYieldsFirstUsable(f, inv, base, text);
      if FirstHolder(f, inv, key.keyData, host) {
        var i: nat, config :| FirstUsable(f, inv, base, key.keyData, i, host, config);
        assert inv.listing[i] in inv.listing;
        assert Search(f, inv, text).Some?;
        var found := Search(f, inv, text).value;
        var j: nat :| FirstUsable(f, inv, base, key.keyData, j, found.0, found.1);
        assert i == j;
      }
    }
  }

  method HandleRequest(ca: Ca, w: World, clock: Clock, request: CaRequest) returns (r: CaResponse)
    ensures r == Dispatch(ca, w, clock, request)
    ensures Fits(request, r)
    ensures forall cert :: r == SignedCertificate(cert) <==> CertifiesWhatWasAsked(ca, w, clock, request, cert)
    ensures ca.formats.Faithful() ==>
              forall host :: r == KeyFound(Some(host)) <==> FindsHost(ca, w, request, host)
  {
    DispatchIsRight(ca, w, clock, request);
    match request {
      case SignCertificate(user, key) =>
        var signed := SignUserKey(ca, w, clock, user, key);
        r := ToResponse(signed);
      case SignHostCertificate(host, key) =>
        var signed := SignHostKey(ca, w, clock, host, key);
        r := ToResponse(signed);
      case CheckPublicKey(key) =>
        var text := ca.formats.printKey(key);
        if text == None {
          return KeyFound(None);
        }
        var found := FindConfigByPublicKey(ca.formats, w.inventory, text.value);
        r := KeyFound(if found == None then None else Some(found.value.0));
    }
  }

  ghost predicate AcceptsAll(rules: BuilderRules) {
    && (forall key, first, second :: rules.start(key, first, second))
    && (forall id :: rules.keyId(id))
    && (forall kept, p :: rules.principal(kept, p))
    && (forall comment :: rules.comment(comment))
    && (forall added, e :: rules.extension(added, e))
    && (forall cert :: rules.sign(cert))
  }

  /** With a builder that accepts everything, signing succeeds exactly for users with
      a template and for hosts whose key the inventory holds, and with all their
      principals. */
  lemma WillingBuilderSigns(ca: Ca, w: World, clock: Clock, name: string, key: PublicKey)
    requires AcceptsAll(ca.rules)
    ensures var r := Dispatch(ca, w, clock, SignCertificate(name, key));
            && (r.SignedCertificate? <==> exists d :: FromTemplate(ca.templates, w.users, name, d))
            && (r.SignedCertificate? ==>
                  exists d :: FromTemplate(ca.templates, w.users, name, d) && r.cert.principals == d.principals)
    ensures var r := Dispatch(ca, w, clock, SignHostCertificate(name, key));
            && (r.SignedCertificate? <==> Holds(ca.formats, w.inventory, name, key.keyData))
            && (r.SignedCertificate? ==>
                  r.cert.principals == ReadHostConfig(ca.formats, w.inventory, name).value.hostnames)
  {
    ReadsAsTheFilesSay(ca.templates, w.users, name);
    var defaults := DefaultsFor(ca.templates, w.users, name);
    if defaults.Ok? {
      WillingBuilderCertifies(ca.rules, UserOrder(name, key, defaults.value), clock);
    }
    if Holds(ca.formats, w.inventory, name, key.keyData) {
      var config := ReadHostConfig(ca.formats, w.inventory, name).value;
      WillingBuilderCertifies(ca.rules, HostOrder(name, key, config), clock);
    }
  }

  lemma WillingBuilderCertifies(rules: BuilderRules, o: Order, clock: Clock)
    requires AcceptsAll(rules)
    ensures Certify(rules, o, clock).Ok? && Certify(rules, o, clock).value.principals == o.principals
  {
    ExtensionsExactly(rules, [], o.extensions);
    KeptIsSubsequence(rules, [], o.principals);
    assert [] + o.principals == o.principals;
  }

  /** On an unchanged flat inventory, a key for which the login check answered a
      host name is not refused when it asks for that host's certificate: no wrong
      key, no missing configuration. */
  lemma LoggedInKeyIsNotWrong(ca: Ca, w: World, login: Clock, signing: Clock, key: PublicKey, presented: PublicKey,
                              host: string)
    requires ca.formats.Faithful() && key.keyData == presented.keyData
    requires var inv := w.inventory;
             && Canonicalize(inv.fs, inv.root).Some?
             && Lookup(inv.fs, Canonicalize(inv.fs, inv.root).value) == Some(Directory)
             && Flat(inv, Canonicalize(inv.fs, inv.root).value)
    requires Dispatch(ca, w, login, CaRequest.CheckPublicKey(key)) == KeyFound(Some(host))
    ensures var r := HostCertificateFor(ca, w, signing, host, presented);
            r.Ok? || r == Err(BuilderRefused)
  {
    LoginAndSigningAgree(ca.formats, w.inventory, ca.formats.printKey(key).value);
  }
}
