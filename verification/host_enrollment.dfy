/** The whole way of a host: it logs in with its key and then asks for its
    certificate. The login searches the inventory by key, the signing opens a file
    by name, so the first can succeed where the second fails. */
module HostEnrollment {
  import opened Base
  import opened Protocol
  import opened Paths
  import opened HostInventory
  import opened UserDefaultsReader
  import opened Authority
  import opened ConnectionHandlers
  import opened ExecCommand

  /** A login attempt with a key on a new connection, answered by the CA. */
  function LogIn(ca: Ca, w: World, clock: Clock, key: PublicKey): (Session, AuthOutcome) {
    match KeyCheckRequest(ca.formats, key)
    case None => (FRESH, Panic)
    case Some(request) => AfterKeyCheck(FRESH, key, Ok(Dispatch(ca, w, clock, request)))
  }

  /** The connection's `sign_host_key` is sent to the CA, which gets as far as its
      certificate builder. */
  predicate ReachesBuilder(ca: Ca, w: World, clock: Clock, s: Session) {
    var plan := ExecPlan(ca.formats, s, "sign_host_key");
    && plan.Ask?
    && var r := Dispatch(ca, w, clock, plan.request);
       r.SignedCertificate? || r == Error(ErrorText(BuilderRefused))
  }

  /** The file that signing opens for `host`, as far as the path goes. */
  function SigningPath(inv: Inventory, host: string): Path {
    Push(inv.root, host + ".toml")
  }

  // ----- any inventory -----

  lemma LoginStartsHostSession(ca: Ca, w: World, clock: Clock, key: PublicKey)
    requires ca.formats.Faithful() && LogIn(ca, w, clock, key).1 == Accept
    ensures exists host ::
              && LogIn(ca, w, clock, key).0 == HostSession(host, key)
              && FirstHolder(ca.formats, w.inventory, key.keyData, host)
  {
    var request := KeyCheckRequest(ca.formats, key).value;
    DispatchIsRight(ca, w, clock, request);
    var host := LogIn(ca, w, clock, key).0.username.value;
    assert FirstHolder(ca.formats, w.inventory, key.keyData, host);
  }

  function HostSession(host: string, key: PublicKey): Session {
    Session(Some(host), Some(KeyPair), Some(key))
  }

  lemma HostAsksForItself(f: Formats, host: string, key: PublicKey)
    requires f.Faithful() && f.printKey(key).Some?
    ensures var plan := ExecPlan(f, HostSession(host, key), "sign_host_key");
            if ValidateHostname(host)
            then plan.Ask? && plan.request.SignHostCertificate? && plan.request.hostName == host
                 && plan.request.publicKey.keyData == key.keyData
            else plan == Disconnect("invalid host name: '" + host + "'")
  {
    WordAlone("sign_host_key");
    CommandAsksForTheHost(f, host, key, "sign_host_key");
  }

  /** A host asks for its own name with its own key, if the name may be asked for. */
  lemma CommandAsksForTheHost(f: Formats, host: string, key: PublicKey, command: string)
    requires f.Faithful() && f.printKey(key).Some? && ParseExecCommand(command).0 == "sign_host_key"
    ensures var plan := ExecPlan(f, HostSession(host, key), command);
            if ValidateHostname(host)
            then plan.Ask? && plan.request.SignHostCertificate? && plan.request.hostName == host
                 && plan.request.publicKey.keyData == key.keyData
            else plan == Disconnect("invalid host name: '" + host + "'")
  {
  }

  /** The CA's answer tells whether the builder was asked. */
  lemma AnswerTellsTheBuilder(ca: Ca, w: World, clock: Clock, host: string, key: PublicKey)
    ensures var r := Dispatch(ca, w, clock, SignHostCertificate(host, key));
            r.SignedCertificate? || r == Error(ErrorText(BuilderRefused)) <==>
            Holds(ca.formats, w.inventory, host, key.keyData)
  {
    var r := HostCertificateFor(ca, w, clock, host, key);
    assert ErrorText(WrongPublicKey(host))[0] != ErrorText(BuilderRefused)[0];
  }

  /** On any inventory: a host that logged in reaches the builder exactly if its
      name passes the name check and the inventory holds its key under that name. */
  lemma SessionReachesBuilder(ca: Ca, w: World, clock: Clock, host: string, key: PublicKey)
    requires ca.formats.Faithful() && ca.formats.printKey(key).Some?
    ensures ReachesBuilder(ca, w, clock, HostSession(host, key)) <==>
            ValidateHostname(host) && Holds(ca.formats, w.inventory, host, key.keyData)
  {
    HostAsksForItself(ca.formats, host, key);
    var plan := ExecPlan(ca.formats, HostSession(host, key), "sign_host_key");
    if plan.Ask? {
      AnswerTellsTheBuilder(ca, w, clock, host, plan.request.publicKey);
    }
  }

  /** Holding a key under a name is hitting the path that the name leads to. */
  lemma HoldingIsHitting(f: Formats, inv: Inventory, base: Path, host: string, keyData: seq<byte>)
    requires Canonicalize(inv.fs, inv.root) == Some(base)
    ensures Holds(f, inv, host, keyData) <==> Hit(f, inv.fs, base, keyData, SigningPath(inv, host)).Some?
  {
    CanonicalIsPhysical(inv.fs, SigningPath(inv, host));
  }

  /** The same about the inventory's own entry of that name, if the links on the
      way to the inventory leave enough budget to open it. */
  lemma HoldingIsHittingTheEntry(f: Formats, inv: Inventory, base: Path, host: string, keyData: seq<byte>)
    requires Canonicalize(inv.fs, inv.root) == Some(base) && '/' !in host
    ensures Holds(f, inv, host, keyData) <==>
            && Canonicalize(inv.fs, SigningPath(inv, host)).Some?
            && Hit(f, inv.fs, base, keyData, base + [host + ".toml"]).Some?
  {
    var name := host + ".toml";
    HoldingIsHitting(f, inv, base, host, keyData);
    ComponentsWithoutSlash(name);
    assert SigningPath(inv, host) == inv.root + [name];
    SameEntry(inv.fs, inv.root, name);
  }

  /** On any inventory: which keys get in, and which of these get on to the
      builder. The name is the stem of the first usable file with the key; that
      file need not be the entry that the name leads back to. */
  lemma WhoReachesTheBuilder(ca: Ca, w: World, login: Clock, signing: Clock, key: PublicKey, base: Path)
    requires ca.formats.Faithful() && LogIn(ca, w, login, key).1 == Accept
    requires Canonicalize(w.inventory.fs, w.inventory.root) == Some(base)
    ensures LogIn(ca, w, login, key).0.username.Some?
    ensures var inv, host := w.inventory, LogIn(ca, w, login, key).0.username.value;
            && FirstHolder(ca.formats, inv, key.keyData, host)
            && (ReachesBuilder(ca, w, signing, LogIn(ca, w, login, key).0) <==>
                  && ValidateHostname(host)
                  && Canonicalize(inv.fs, SigningPath(inv, host)).Some?
                  && Hit(ca.formats, inv.fs, base, key.keyData, base + [host + ".toml"]).Some?)
  {
    LoginStartsHostSession(ca, w, login, key);
    var host := LogIn(ca, w, login, key).0.username.value;
    SessionReachesBuilder(ca, w, signing, host, key);
    if ValidateHostname(host) {
      HoldingIsHittingTheEntry(ca.formats, w.inventory, base, host, key.keyData);
    }
  }

  // ----- an inventory that holds each key once -----

  /** What a recursive glob for `.toml` files yields, seen from the top: only files
      below the inventory, and each of its own entries of such a name. */
  ghost predicate ListsTomlFiles(inv: Inventory, base: Path) {
    && (forall file :: file in inv.listing ==> base < file && TomlName(Last(file)))
    && (forall name :: TomlName(name) && Lookup(inv.fs, base + [name]).Some? ==> base + [name] in inv.listing)
  }

  /** `file` is the only listed file that is usable for this key. */
  ghost predicate OnlyHolder(f: Formats, inv: Inventory, base: Path, keyData: seq<byte>, file: Path) {
    forall other :: other in inv.listing && Hit(f, inv.fs, base, keyData, other).Some? <==> other == file
  }

  predicate DirectlyIn(base: Path, file: Path) {
    base < file && |file| == |base| + 1
  }

  lemma HitOpensTheDirectory(f: Formats, fs: FileSystem, base: Path, keyData: seq<byte>, file: Path)
    requires Physical(fs, base) && base < file && Hit(f, fs, base, keyData, file).Some?
    ensures Lookup(fs, base) == Some(Directory)
  {
    var rest := file[|base|..];
    assert file == base + rest && [] + base == base;
    ResolveSplits(fs, [], base, rest, MAX_LINKS);
    PhysicalIsFixed(fs, [], base, MAX_LINKS);
  }

  lemma HitExists(f: Formats, fs: FileSystem, base: Path, keyData: seq<byte>, name: string)
    requires Physical(fs, base) && PlainName(name)
    requires Hit(f, fs, base, keyData, base + [name]).Some?
    ensures Lookup(fs, base + [name]).Some?
  {
    ResolveSplits(fs, [], base, [name], MAX_LINKS);
    assert [] + base == base;
    PhysicalIsFixed(fs, [], base, MAX_LINKS);
  }

  lemma StemBack(name: string) returns (back: string)
    requires TomlName(name)
    ensures back == FileStem(name) + ".toml" && TomlName(back) && PlainName(back)
    ensures back == name <==> name != ".toml"
    ensures '/' !in FileStem(name)
  {
    StemRestoresName(name);
    StemNameIsPlain(name);
    back := FileStem(name) + ".toml";
    assert back[|back| - 5..] == ".toml";
  }

  lemma DirectMeansEntry(base: Path, file: Path, name: string)
    requires base < file && Last(file) == name
    ensures DirectlyIn(base, file) <==> file == base + [name]
  {
    if |file| == |base| + 1 {
      assert file == base + [file[|base|]];
    }
  }

  /** The entry of the stem's name holds the key exactly if it is the file itself. */
  lemma EntryIsTheFile(f: Formats, inv: Inventory, base: Path, keyData: seq<byte>, file: Path)
    requires Canonicalize(inv.fs, inv.root) == Some(base) && ListsTomlFiles(inv, base)
    requires OnlyHolder(f, inv, base, keyData, file)
    ensures var name := Last(file);
            Hit(f, inv.fs, base, keyData, base + [FileStem(name) + ".toml"]).Some? <==>
            DirectlyIn(base, file) && name != ".toml"
  {
    var name := Last(file);
    assert file in inv.listing;
    var back := StemBack(name);
    DirectMeansEntry(base, file, name);
    CanonicalIsPhysical(inv.fs, inv.root);
    EntryHits(f, inv, base, keyData, file, back);
    assert file == base + [back] <==> file == base + [name] && back == name by {
      if file == base + [back] {
        assert Last(file) == back;
      }
    }
  }

  lemma EntryHits(f: Formats, inv: Inventory, base: Path, keyData: seq<byte>, file: Path, name: string)
    requires Physical(inv.fs, base) && ListsTomlFiles(inv, base) && TomlName(name) && PlainName(name)
    requires OnlyHolder(f, inv, base, keyData, file)
    ensures Hit(f, inv.fs, base, keyData, base + [name]).Some? <==> file == base + [name]
  {
    if Hit(f, inv.fs, base, keyData, base + [name]).Some? {
      HitExists(f, inv.fs, base, keyData, name);
      assert base + [name] in inv.listing;
    }
  }

  /** Where one file holds the key, its host logs in under the file's stem, and its
      command gets through to the builder exactly if the file lies directly in the
      inventory, is not called `.toml`, has a stem that passes the name check, and
      the links on the way leave enough budget. For a plain file there is nothing
      to the last condition. */
  lemma LoginReachesTheBuilderFromTheTop(ca: Ca, w: World, login: Clock, signing: Clock, key: PublicKey,
                                         base: Path, file: Path)
    requires ca.formats.Faithful() && LogIn(ca, w, login, key).1 == Accept
    requires Canonicalize(w.inventory.fs, w.inventory.root) == Some(base)
    requires ListsTomlFiles(w.inventory, base) && OnlyHolder(ca.formats, w.inventory, base, key.keyData, file)
    ensures var inv, session, stem := w.inventory, LogIn(ca, w, login, key).0, FileStem(Last(file));
            && session == HostSession(stem, key)
            && (ReachesBuilder(ca, w, signing, session) <==>
                  && DirectlyIn(base, file) && Last(file) != ".toml" && ValidateHostname(stem)
                  && Canonicalize(inv.fs, SigningPath(inv, stem)).Some?)
            && (Lookup(inv.fs, file).Some? && Lookup(inv.fs, file).value.File? ==>
                  (ReachesBuilder(ca, w, signing, session) <==>
                     DirectlyIn(base, file) && Last(file) != ".toml" && ValidateHostname(stem)))
  {
    LoginStartsHostSession(ca, w, login, key);
    var session := LogIn(ca, w, login, key).0;
    OnlyHolderIsFirst(ca.formats, w.inventory, base, key.keyData, file, session.username.value);
    WhoReachesTheBuilder(ca, w, login, signing, key, base);
    EntryIsTheFile(ca.formats, w.inventory, base, key.keyData, file);
    PlainFileOpens(ca.formats, w.inventory, base, key.keyData, file);
  }

  lemma OnlyHolderIsFirst(f: Formats, inv: Inventory, base: Path, keyData: seq<byte>, file: Path, host: string)
    requires Canonicalize(inv.fs, inv.root) == Some(base)
    requires OnlyHolder(f, inv, base, keyData, file) && FirstHolder(f, inv, keyData, host)
    ensures host == FileStem(Last(file))
  {
    var i: nat, config :| FirstUsable(f, inv, base, keyData, i, host, config);
    HitIsUsable(f, inv.fs, base, keyData, inv.listing[i], config);
    assert inv.listing[i] in inv.listing;
  }

  lemma PlainFileOpens(f: Formats, inv: Inventory, base: Path, keyData: seq<byte>, file: Path)
    requires Canonicalize(inv.fs, inv.root) == Some(base) && ListsTomlFiles(inv, base)
    requires OnlyHolder(f, inv, base, keyData, file)
    ensures Lookup(inv.fs, file).Some? && Lookup(inv.fs, file).value.File?
            && DirectlyIn(base, file) && Last(file) != ".toml" ==>
              Canonicalize(inv.fs, SigningPath(inv, FileStem(Last(file)))).Some?
  {
    var name := Last(file);
    assert file in inv.listing && Hit(f, inv.fs, base, keyData, file).Some?;
    var back := StemBack(name);
    DirectMeansEntry(base, file, name);
    CanonicalIsPhysical(inv.fs, inv.root);
    HitOpensTheDirectory(f, inv.fs, base, keyData, file);
    NamedEntry(inv.fs, inv.root, back);
  }

  // ----- a login that leads nowhere -----

  /** Keys that print let their holders in. */
  lemma HolderLogsIn(ca: Ca, w: World, clock: Clock, key: PublicKey, base: Path, file: Path)
    requires ca.formats.Faithful() && forall k :: ca.formats.printKey(k).Some?
    requires Canonicalize(w.inventory.fs, w.inventory.root) == Some(base)
    requires file in w.inventory.listing && Hit(ca.formats, w.inventory.fs, base, key.keyData, file).Some?
    ensures LogIn(ca, w, clock, key).1 == Accept
  {
    var checked := KeyCheckRequest(ca.formats, key).value.publicKey;
    FirstHitIsFirst(ca.formats, w.inventory.fs, base, key.keyData, w.inventory.listing);
  }

  /** One configuration, in a subdirectory. */
  function Nested(text: string): Inventory {
    var file := ["hosts", "lab", "x.toml"];
    Inventory(map[["hosts"] := Directory, ["hosts", "lab"] := Directory, file := File(Some(text))], ["hosts"], [file])
  }

  /** One configuration, whose stem has two dots in a row. */
  function Dotted(text: string): Inventory {
    var file := ["hosts", "a..b.toml"];
    Inventory(map[["hosts"] := Directory, file := File(Some(text))], ["hosts"], [file])
  }

  predicate HoldsText(f: Formats, text: string, keyData: seq<byte>) {
    && f.parseHost(text).Some?
    && var key := f.parseKey(f.parseHost(text).value.publicKey);
       key.Some? && key.value.keyData == keyData
  }

  lemma PlainFileHits(f: Formats, fs: FileSystem, base: Path, file: Path, text: string, keyData: seq<byte>)
    requires Physical(fs, file) && Lookup(fs, file) == Some(File(Some(text)))
    requires base <= file && HoldsText(f, text, keyData)
    ensures Hit(f, fs, base, keyData, file).Some?
  {
    assert [] + file == file;
    PhysicalIsFixed(fs, [], file, MAX_LINKS);
  }

  lemma HostsIsPhysical(fs: FileSystem)
    requires ["hosts"] in fs && fs[["hosts"]] == Directory
    ensures Physical(fs, ["hosts"]) && Canonicalize(fs, ["hosts"]) == Some(["hosts"])
  {
    assert ["hosts"][..0] == [];
    assert [] + ["hosts"] == ["hosts"];
    PhysicalIsFixed(fs, [], ["hosts"], MAX_LINKS);
  }

  /** The key of a nested configuration logs in as `x`, and the signing under `x`
      finds no configuration. */
  lemma NestedHostLogsInButCannotSign(ca: Ca, users: UserFiles, login: Clock, signing: Clock, key: PublicKey,
                                      text: string)
    requires ca.formats.Faithful() && (forall k :: ca.formats.printKey(k).Some?)
    requires HoldsText(ca.formats, text, key.keyData)
    ensures var w := World(Nested(text), users);
            var session := HostSession("x", key);
            var plan := ExecPlan(ca.formats, session, "sign_host_key");
            && LogIn(ca, w, login, key) == (session, Accept)
            && plan.Ask? && plan.request.SignHostCertificate? && plan.request.hostName == "x"
            && Dispatch(ca, w, signing, plan.request)
               == Error(ErrorText(NoHostConfig(Unresolved(CandidateUnresolved))))
            && !ReachesBuilder(ca, w, signing, session)
  {
    var w := World(Nested(text), users);
    NestedFileHits(ca.formats, text, key.keyData);
    OneFileLogsIn(ca, w, login, key, ["hosts"], ["hosts", "lab", "x.toml"], "x");
    HostAsksForItself(ca.formats, "x", key);
    NothingCalledX(ca.formats, text);
    var request := ExecPlan(ca.formats, HostSession("x", key), "sign_host_key").request;
    AnswerTellsTheBuilder(ca, w, signing, "x", request.publicKey);
  }

  lemma NothingCalledX(f: Formats, text: string)
    ensures ReadHostConfig(f, Nested(text), "x") == Err(Unresolved(CandidateUnresolved))
  {
    HostsIsPhysical(Nested(text).fs);
    assert "x" + ".toml" == "x.toml";
    NoEntryX(text);
    NamedEntry(Nested(text).fs, ["hosts"], "x.toml");
  }

  lemma NoEntryX(text: string)
    ensures Lookup(Nested(text).fs, ["hosts"] + ["x.toml"]) == None
  {
    var place := ["hosts"] + ["x.toml"];
    assert |place| == 2 && |place[1]| == 6;
    assert |["hosts", "lab"][1]| == 3;
  }

  lemma NestedFileHits(f: Formats, text: string, keyData: seq<byte>)
    requires HoldsText(f, text, keyData)
    ensures Canonicalize(Nested(text).fs, ["hosts"]) == Some(["hosts"])
    ensures Hit(f, Nested(text).fs, ["hosts"], keyData, ["hosts", "lab", "x.toml"]).Some?
  {
    HostsIsPhysical(Nested(text).fs);
    NestedFileIsPhysical(text);
    PlainFileHits(f, Nested(text).fs, ["hosts"], ["hosts", "lab", "x.toml"], text, keyData);
  }

  lemma NestedFileIsPhysical(text: string)
    ensures Physical(Nested(text).fs, ["hosts", "lab", "x.toml"])
  {
    var fs := Nested(text).fs;
    HostsIsPhysical(fs);
    assert ["hosts"] + ["lab"] == ["hosts", "lab"] && ["hosts", "lab"] + ["x.toml"] == ["hosts", "lab", "x.toml"];
    PhysicalChild(fs, ["hosts"], "lab");
    PhysicalChild(fs, ["hosts", "lab"], "x.toml");
  }

  lemma OneFileLogsIn(ca: Ca, w: World, clock: Clock, key: PublicKey, base: Path, file: Path, stem: string)
    requires ca.formats.Faithful() && forall k :: ca.formats.printKey(k).Some?
    requires Canonicalize(w.inventory.fs, w.inventory.root) == Some(base) && w.inventory.listing == [file]
    requires Hit(ca.formats, w.inventory.fs, base, key.keyData, file).Some?
    requires TomlName(Last(file)) && Last(file) == stem + ".toml" && stem != ""
    ensures LogIn(ca, w, clock, key) == (HostSession(stem, key), Accept)
  {
    HolderLogsIn(ca, w, clock, key, base, file);
    LoginStartsHostSession(ca, w, clock, key);
    OnlyHolderIsFirst(ca.formats, w.inventory, base, key.keyData, file, LogIn(ca, w, clock, key).0.username.value);
    StemRestoresName(Last(file));
    assert FileStem(Last(file)) == (FileStem(Last(file)) + ".toml")[..|FileStem(Last(file))|];
  }

  /** The key of `a..b.toml` logs in as `a..b`, and the command is turned away
      before the CA is asked. */
  lemma DottedHostLogsInButMayNotAsk(ca: Ca, users: UserFiles, login: Clock, key: PublicKey, text: string)
    requires ca.formats.Faithful() && (forall k :: ca.formats.printKey(k).Some?)
    requires HoldsText(ca.formats, text, key.keyData)
    ensures var session := HostSession("a..b", key);
            && LogIn(ca, World(Dotted(text), users), login, key) == (session, Accept)
            && ExecPlan(ca.formats, session, "sign_host_key") == Disconnect("invalid host name: '" + "a..b" + "'")
  {
    var w, stem := World(Dotted(text), users), "a..b";
    DottedFileHits(ca.formats, text, key.keyData);
    OneFileLogsIn(ca, w, login, key, ["hosts"], ["hosts", "a..b.toml"], stem);
    assert stem[1] == '.' && stem[2] == '.';
    HostAsksForItself(ca.formats, stem, key);
  }

  lemma DottedFileHits(f: Formats, text: string, keyData: seq<byte>)
    requires HoldsText(f, text, keyData)
    ensures Canonicalize(Dotted(text).fs, ["hosts"]) == Some(["hosts"])
    ensures Hit(f, Dotted(text).fs, ["hosts"], keyData, ["hosts", "a..b.toml"]).Some?
  {
    var fs, file := Dotted(text).fs, ["hosts", "a..b.toml"];
    HostsIsPhysical(fs);
    assert ["hosts"] + ["a..b.toml"] == file;
    PhysicalChild(fs, ["hosts"], "a..b.toml");
    PlainFileHits(f, fs, ["hosts"], file, text, keyData);
  }
}
