/** The host inventory: lookup by name for signing, search by key for login. */
module HostInventory {
  import opened Base
  import opened Protocol
  import opened Paths
  import opened Text

  datatype HostConfig = HostConfig(
    publicKey: string,
    validityInDays: u16,
    hostnames: seq<string>,
    extensions: seq<string>)

  /** TOML and OpenSSH text formats, kept abstract. */
  datatype Formats = Formats(
    parseHost: string -> Option<HostConfig>,
    parseKey: string -> Option<PublicKey>,
    printKey: PublicKey -> Option<string>)
  {
    /** What is assumed of OpenSSH key text: printing keeps the key. */
    ghost predicate Faithful() {
      forall k :: printKey(k).Some? ==>
        parseKey(printKey(k).value).Some? && parseKey(printKey(k).value).value.keyData == k.keyData
    }
  }

  /** The files as one request sees them. `listing` is what the recursive glob
      for `.toml` files under the canonical inventory yields, in its order. */
  datatype Inventory = Inventory(fs: FileSystem, root: Path, listing: seq<Path>)

  datatype LookupError = Unresolved(cause: PathError) | Unreadable | Malformed

  // ----- lookup by name -----

  function ReadHostConfig(f: Formats, inv: Inventory, hostName: string): Result<HostConfig, LookupError> {
    var path := Push(inv.root, hostName + ".toml");
    match EnsurePathWithinDirectory(inv.fs, path, inv.root)
    case Err(e) => Err(Unresolved(e))
    case Ok(safePath) =>
      match ReadFile(inv.fs, safePath)
      case None => Err(Unreadable)
      case Some(text) =>
        match f.parseHost(text)
        case None => Err(Malformed)
        case Some(config) => Ok(config)
  }

  // ----- search by key -----

  /** The configuration in `file`, if the search may use it and its key has the
      wanted key data. */
  function Hit(f: Formats, fs: FileSystem, base: Path, wanted: seq<byte>, file: Path): Option<HostConfig> {
    match Canonicalize(fs, file)
    case None => None
    case Some(place) =>
      if !(base <= place) then None
      else match ReadFile(fs, file)
        case None => None
        case Some(text) =>
          match f.parseHost(text)
          case None => None
          case Some(config) =>
            match f.parseKey(config.publicKey)
            case None => None
            case Some(key) => if key.keyData == wanted then Some(config) else None
  }

  /** What the search asks of a file: inside the inventory after following all
      links, readable, well-formed, and holding the wanted key. */
  predicate Usable(f: Formats, fs: FileSystem, base: Path, wanted: seq<byte>, file: Path, config: HostConfig) {
    && Canonicalize(fs, file).Some? && base <= Canonicalize(fs, file).value
    && ReadFile(fs, file).Some?
    && f.parseHost(ReadFile(fs, file).value) == Some(config)
    && f.parseKey(config.publicKey).Some?
    && f.parseKey(config.publicKey).value.keyData == wanted
  }

  lemma HitIsUsable(f: Formats, fs: FileSystem, base: Path, wanted: seq<byte>, file: Path, config: HostConfig)
    ensures Hit(f, fs, base, wanted, file) == Some(config) <==> Usable(f, fs, base, wanted, file, config)
  {
  }

  function Last(file: Path): string {
    if file == [] then "" else file[|file| - 1]
  }

  /** The name without its last extension; a leading dot starts no extension. */
  function FileStem(name: string): string {
    if name == ".." then name
    else
      var dot := LastIndex(name, '.');
      if dot <= 0 then name else name[..dot]
  }

  /** The specification of the search: the first hit in listing order. */
  function FirstHit(f: Formats, fs: FileSystem, base: Path, wanted: seq<byte>, listing: seq<Path>)
    : Option<(string, HostConfig)>
  {
    if listing == [] then None
    else match Hit(f, fs, base, wanted, listing[0])
      case Some(config) => Some((FileStem(Last(listing[0])), config))
      case None => FirstHit(f, fs, base, wanted, listing[1..])
  }

  function Search(f: Formats, inv: Inventory, publicKey: string): Option<(string, HostConfig)> {
    match f.parseKey(publicKey)
    case None => None
    case Some(key) =>
      match Canonicalize(inv.fs, inv.root)
      case None => None
      case Some(base) => FirstHit(f, inv.fs, base, key.keyData, inv.listing)
  }

  /** The search loop, with its five ways to skip a file. */
  method FindConfigByPublicKey(f: Formats, inv: Inventory, publicKey: string) returns (r: Option<(string, HostConfig)>)
    ensures r == Search(f, inv, publicKey)
  {
    var searchKey := f.parseKey(publicKey);
    if searchKey == None {
      return None;
    }
    var canonicalInventory := Canonicalize(inv.fs, inv.root);
    if canonicalInventory == None {
      return None;
    }
    ghost var wanted := searchKey.value.keyData;
    for i := 0 to |inv.listing|
      invariant Search(f, inv, publicKey) ==
                FirstHit(f, inv.fs, canonicalInventory.value, wanted, inv.listing[i..])
    {
      var file := inv.listing[i];
      assert inv.listing[i..][1..] == inv.listing[i + 1..];
      var place := Canonicalize(inv.fs, file);
      if place == None {
        continue;
      }
      if !(canonicalInventory.value <= place.value) {
        continue;
      }
      var text := ReadFile(inv.fs, file);
      if text == None {
        continue;
      }
      var config := f.parseHost(text.value);
      if config == None {
        continue;
      }
      var key := f.parseKey(config.value.publicKey);
      if key == None {
        continue;
      }
      if key.value.keyData != searchKey.value.keyData {
        continue;
      }
      return Some((FileStem(Last(file)), config.value));
    }
    return None;
  }

  ghost predicate FirstHitAt(f: Formats, fs: FileSystem, base: Path, wanted: seq<byte>, listing: seq<Path>,
                             i: nat, r: (string, HostConfig)) {
    && i < |listing|
    && Hit(f, fs, base, wanted, listing[i]) == Some(r.1)
    && FileStem(Last(listing[i])) == r.0
    && forall j :: 0 <= j < i ==> Hit(f, fs, base, wanted, listing[j]) == None
  }

  /** A result names the first file that hits; no result means no file hits. */
  lemma {:induction false} FirstHitIsFirst(f: Formats, fs: FileSystem, base: Path, wanted: seq<byte>,
                                           listing: seq<Path>)
    ensures var r := FirstHit(f, fs, base, wanted, listing);
            && (r == None <==> forall i :: 0 <= i < |listing| ==> Hit(f, fs, base, wanted, listing[i]) == None)
            && (r.Some? ==> exists i: nat :: FirstHitAt(f, fs, base, wanted, listing, i, r.value))
  {
    if listing == [] {
    } else if Hit(f, fs, base, wanted, listing[0]).Some? {
      assert FirstHitAt(f, fs, base, wanted, listing, 0, FirstHit(f, fs, base, wanted, listing).value);
    } else {
      var rest := listing[1..];
      FirstHitIsFirst(f, fs, base, wanted, rest);
      assert forall i :: 0 < i < |listing| ==> listing[i] == rest[i - 1];
      var r := FirstHit(f, fs, base, wanted, rest);
      if r.Some? {
        var i: nat :| FirstHitAt(f, fs, base, wanted, rest, i, r.value);
        assert FirstHitAt(f, fs, base, wanted, listing, i + 1, r.value);
      }
    }
  }

  /** The search yields the first usable file of the listing, under that file's
      stem; it yields nothing exactly when no listed file is usable. */
  lemma SearchYieldsFirstUsable(f: Formats, inv: Inventory, base: Path, publicKey: string)
    requires f.parseKey(publicKey).Some? && Canonicalize(inv.fs, inv.root) == Some(base)
    ensures var wanted := f.parseKey(publicKey).value.keyData;
            match Search(f, inv, publicKey)
            case None => forall file, config :: file in inv.listing ==> !Usable(f, inv.fs, base, wanted, file, config)
            case Some((host, config)) => exists i: nat :: FirstUsable(f, inv, base, wanted, i, host, config)
  {
    var wanted := f.parseKey(publicKey).value.keyData;
    FirstHitIsFirst(f, inv.fs, base, wanted, inv.listing);
    match Search(f, inv, publicKey)
    case None =>
      forall file, config | file in inv.listing
        ensures !Usable(f, inv.fs, base, wanted, file, config)
      {
        HitIsUsable(f, inv.fs, base, wanted, file, config);
      }
    case Some((host, config)) =>
      var i: nat :| FirstHitAt(f, inv.fs, base, wanted, inv.listing, i, (host, config));
      HitIsUsable(f, inv.fs, base, wanted, inv.listing[i], config);
      forall j, other | 0 <= j < i
        ensures !Usable(f, inv.fs, base, wanted, inv.listing[j], other)
      {
        HitIsUsable(f, inv.fs, base, wanted, inv.listing[j], other);
      }
      assert FirstUsable(f, inv, base, wanted, i, host, config);
  }

  ghost predicate FirstUsable(f: Formats, inv: Inventory, base: Path, wanted: seq<byte>,
                              i: nat, host: string, config: HostConfig) {
    && i < |inv.listing|
    && host == FileStem(Last(inv.listing[i]))
    && Usable(f, inv.fs, base, wanted, inv.listing[i], config)
    && forall j, other :: 0 <= j < i ==> !Usable(f, inv.fs, base, wanted, inv.listing[j], other)
  }

  /** The files that hit, in listing order. */
  function Hits(f: Formats, fs: FileSystem, base: Path, wanted: seq<byte>, listing: seq<Path>): seq<Path> {
    if listing == [] then []
    else
      var later := Hits(f, fs, base, wanted, listing[1..]);
      if Hit(f, fs, base, wanted, listing[0]).Some? then [listing[0]] + later else later
  }

  lemma {:induction false} OnlyHitsMatter(f: Formats, fs: FileSystem, base: Path, wanted: seq<byte>, listing: seq<Path>)
    ensures var hits := Hits(f, fs, base, wanted, listing);
            FirstHit(f, fs, base, wanted, listing) == FirstHit(f, fs, base, wanted, hits)
  {
    if listing != [] {
      OnlyHitsMatter(f, fs, base, wanted, listing[1..]);
    }
  }

  /** Unreadable, malformed, outside or non-matching files may be added or
      removed anywhere: listings with the same hits give the same result, and so
      do search keys that differ in their comment only. */
  lemma SkippedFilesAndCommentsAreIrrelevant(f: Formats, inv: Inventory, listing: seq<Path>,
                                             key: string, sameKey: string)
    requires f.parseKey(key).Some? && f.parseKey(sameKey).Some?
    requires f.parseKey(key).value.keyData == f.parseKey(sameKey).value.keyData
    requires Canonicalize(inv.fs, inv.root).Some? ==>
               var base := Canonicalize(inv.fs, inv.root).value;
               var wanted := f.parseKey(key).value.keyData;
               Hits(f, inv.fs, base, wanted, inv.listing) == Hits(f, inv.fs, base, wanted, listing)
    ensures Search(f, inv, key) == Search(f, inv.(listing := listing), sameKey)
  {
    if Canonicalize(inv.fs, inv.root).Some? {
      var base := Canonicalize(inv.fs, inv.root).value;
      var wanted := f.parseKey(key).value.keyData;
      OnlyHitsMatter(f, inv.fs, base, wanted, inv.listing);
      OnlyHitsMatter(f, inv.fs, base, wanted, listing);
    }
  }

  // ----- do the two lookups agree? -----

  predicate TomlName(name: string) {
    && |name| >= 5 && name[|name| - 5..] == ".toml"
    && '/' !in name
  }

  lemma StemRestoresName(name: string)
    requires TomlName(name)
    ensures FileStem(name) + ".toml" == name <==> name != ".toml"
    ensures FileStem(name) != "" && '/' !in FileStem(name)
  {
    var n := |name| - 5;
    var ext := name[n..];
    assert name[n] == ext[0] == '.';
    assert name[n + 1] == ext[1] == 't';
    assert name[n + 2] == ext[2] == 'o';
    assert name[n + 3] == ext[3] == 'm';
    assert name[n + 4] == ext[4] == 'l';
    LastIndexIsLast(name, '.', n);
    assert name == name[..n] + ext;
    if n == 0 {
      assert name == ext;
      assert |FileStem(name) + ".toml"| == 10;
    }
  }

  /** The file that signing opens for a host name, if it opens one. */
  function SigningPlace(inv: Inventory, hostName: string): Result<Path, PathError> {
    EnsurePathWithinDirectory(inv.fs, Push(inv.root, hostName + ".toml"), inv.root)
  }

  lemma NameOpensItsFile(inv: Inventory, base: Path, name: string, file: Path)
    requires Canonicalize(inv.fs, inv.root) == Some(base) && Lookup(inv.fs, base) == Some(Directory)
    requires '/' !in name && PlainName(name)
    requires Lookup(inv.fs, file).Some? && Lookup(inv.fs, file).value.File?
    requires Lookup(inv.fs, base + [name]).Some? ==> !Lookup(inv.fs, base + [name]).value.Symlink?
    ensures EnsurePathWithinDirectory(inv.fs, Push(inv.root, name), inv.root) == Ok(file) <==> file == base + [name]
  {
    NamedEntry(inv.fs, inv.root, name);
  }

  lemma StemNameIsPlain(name: string)
    requires TomlName(name)
    ensures PlainName(FileStem(name) + ".toml") && '/' !in FileStem(name) + ".toml"
  {
    StemRestoresName(name);
  }

  /** For a file `dir/name` in or below the inventory whose stem names no symbolic
      link: signing under the stem opens that very file exactly when the file
      lies directly in the inventory and is not called `.toml`. Otherwise it opens
      another file or none. */
  lemma SigningOpensTheFileThatLoggedIn(inv: Inventory, base: Path, dir: Path, name: string)
    requires Canonicalize(inv.fs, inv.root) == Some(base) && Lookup(inv.fs, base) == Some(Directory)
    requires base <= dir && TomlName(name)
    requires Lookup(inv.fs, dir + [name]).Some? && Lookup(inv.fs, dir + [name]).value.File?
    requires var entry := Lookup(inv.fs, base + [FileStem(name) + ".toml"]);
             entry.Some? ==> !entry.value.Symlink?
    ensures SigningPlace(inv, FileStem(name)) == Ok(dir + [name]) <==> dir == base && name != ".toml"
  {
    StemRestoresName(name);
    StemNameIsPlain(name);
    NameOpensItsFile(inv, base, FileStem(name) + ".toml", dir + [name]);
    SameChild(dir, name, base, FileStem(name) + ".toml");
  }

  lemma SameChild(dir: Path, name: string, dir': Path, name': string)
    ensures dir + [name] == dir' + [name'] <==> dir == dir' && name == name'
  {
    if dir + [name] == dir' + [name'] {
      assert dir == (dir + [name])[..|dir|] == (dir' + [name'])[..|dir'|] == dir';
      assert name == (dir + [name])[|dir|] == name';
    }
  }

  predicate FlatFile(fs: FileSystem, base: Path, file: Path, name: string) {
    && file == base + [name]
    && Lookup(fs, file).Some? && Lookup(fs, file).value.File?
    && TomlName(name) && name != ".toml"
  }

  /** Every listed file is a plain top-level file with a name that signing can
      use again. */
  ghost predicate Flat(inv: Inventory, base: Path) {
    forall file :: file in inv.listing ==> exists name :: FlatFile(inv.fs, base, file, name)
  }

  lemma SigningReads(f: Formats, inv: Inventory, hostName: string, file: Path)
    requires SigningPlace(inv, hostName) == Ok(file)
    requires ReadFile(inv.fs, file).Some? && f.parseHost(ReadFile(inv.fs, file).value).Some?
    ensures ReadHostConfig(f, inv, hostName) == Ok(f.parseHost(ReadFile(inv.fs, file).value).value)
  {
  }

  lemma HitAgrees(f: Formats, inv: Inventory, base: Path, wanted: seq<byte>, name: string, stem: string)
    requires Canonicalize(inv.fs, inv.root) == Some(base) && Lookup(inv.fs, base) == Some(Directory)
    requires Lookup(inv.fs, base + [name]).Some? && Lookup(inv.fs, base + [name]).value.File?
    requires '/' !in name && PlainName(name) && stem + ".toml" == name
    requires Hit(f, inv.fs, base, wanted, base + [name]).Some?
    ensures ReadHostConfig(f, inv, stem) == Ok(Hit(f, inv.fs, base, wanted, base + [name]).value)
  {
    HitIsUsable(f, inv.fs, base, wanted, base + [name], Hit(f, inv.fs, base, wanted, base + [name]).value);
    NameOpensItsFile(inv, base, name, base + [name]);
    SigningReads(f, inv, stem, base + [name]);
  }

  /** On an unchanged flat inventory the two lookups agree: the name under which
      a key logs in leads signing to the same configuration, whose key is the
      one that logged in. */
  lemma LoginAndSigningAgree(f: Formats, inv: Inventory, publicKey: string)
    requires Canonicalize(inv.fs, inv.root).Some?
    requires Lookup(inv.fs, Canonicalize(inv.fs, inv.root).value) == Some(Directory)
    requires Flat(inv, Canonicalize(inv.fs, inv.root).value)
    requires Search(f, inv, publicKey).Some?
    ensures var (hostName, config) := Search(f, inv, publicKey).value;
            && ReadHostConfig(f, inv, hostName) == Ok(config)
            && f.parseKey(config.publicKey).Some? && f.parseKey(publicKey).Some?
            && f.parseKey(config.publicKey).value.keyData == f.parseKey(publicKey).value.keyData
  {
    var base := Canonicalize(inv.fs, inv.root).value;
    var wanted := f.parseKey(publicKey).value.keyData;
    FirstHitIsFirst(f, inv.fs, base, wanted, inv.listing);
    var r := Search(f, inv, publicKey).value;
    var i: nat :| FirstHitAt(f, inv.fs, base, wanted, inv.listing, i, r);
    var file := inv.listing[i];
    assert file in inv.listing;
    var name :| FlatFile(inv.fs, base, file, name);
    StemRestoresName(name);
    assert Last(file) == name;
    HitIsUsable(f, inv.fs, base, wanted, file, r.1);
    HitAgrees(f, inv, base, wanted, name, FileStem(name));
  }

  /** Where signing finds a configuration at all, it finds it in the file that
      physically lies inside the inventory. */
  lemma SigningReadsInside(f: Formats, inv: Inventory, hostName: string)
    requires ReadHostConfig(f, inv, hostName).Ok?
    ensures Canonicalize(inv.fs, inv.root).Some?
    ensures exists place: Path ::
              && Canonicalize(inv.fs, inv.root).value <= place
              && Physical(inv.fs, place)
              && Lookup(inv.fs, place).Some? && Lookup(inv.fs, place).value.File?
              && Lookup(inv.fs, place).value.text.Some?
              && f.parseHost(Lookup(inv.fs, place).value.text.value) == Some(ReadHostConfig(f, inv, hostName).value)
  {
    AcceptedPathIsInside(inv.fs, Push(inv.root, hostName + ".toml"), inv.root);
  }
}
