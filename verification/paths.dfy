/** Paths, symbolic links and the containment check that keeps host
    configurations inside the inventory directory. */
module Paths {
  import opened Base

  /** Components counted from the root. A canonical path holds names only, any
      other path may also hold "", "." and "..". */
  type Path = seq<string>

  datatype Entry =
    | File(text: Option<string>)                        // None: unreadable or not UTF-8
    | Directory
    | Symlink(absolute: bool, target: seq<string>)

  type FileSystem = map<Path, Entry>

  /** The kernel's bound on links followed in one resolution. */
  const MAX_LINKS: nat := 40

  function Lookup(fs: FileSystem, p: Path): Option<Entry> {
    if p == [] then Some(Directory) else if p in fs then Some(fs[p]) else None
  }

  function Parent(p: Path): Path {
    if p == [] then [] else p[..|p| - 1]
  }

  /** Walks `todo` from the directory `at`. Yields the path reached and the links
      that may still be followed. */
  function Resolve(fs: FileSystem, at: Path, todo: seq<string>, links: nat): Option<(Path, nat)>
    decreases links, |todo|
  {
    if todo == [] then Some((at, links))
    else if Lookup(fs, at) != Some(Directory) then None
    else
      var name, rest := todo[0], todo[1..];
      if name == "" || name == "." then Resolve(fs, at, rest, links)
      else if name == ".." then Resolve(fs, Parent(at), rest, links)
      else
        match Lookup(fs, at + [name])
        case None => None
        case Some(Symlink(absolute, target)) =>
          if links == 0 then None
          else Resolve(fs, if absolute then [] else at, target + rest, links - 1)
        case Some(_) => Resolve(fs, at + [name], rest, links)
  }

  function Canonicalize(fs: FileSystem, p: Path): Option<Path> {
    match Resolve(fs, [], p, MAX_LINKS)
    case None => None
    case Some((q, _)) => Some(q)
  }

  predicate PlainName(name: string) {
    name != "" && name != "." && name != ".."
  }

  /** A path that exists and that the kernel walks without following a link or
      turning back: the physical place of a file. */
  ghost predicate Physical(fs: FileSystem, p: Path) {
    && (forall i :: 0 <= i < |p| ==> PlainName(p[i]) && Lookup(fs, p[..i]) == Some(Directory))
    && Lookup(fs, p).Some? && !Lookup(fs, p).value.Symlink?
  }

  lemma PhysicalParent(fs: FileSystem, p: Path)
    requires Physical(fs, p)
    ensures Physical(fs, Parent(p))
  {
    if p != [] {
      assert forall i :: 0 <= i < |p| - 1 ==> Parent(p)[..i] == p[..i];
    }
  }

  lemma PhysicalChild(fs: FileSystem, p: Path, name: string)
    requires Physical(fs, p) && Lookup(fs, p) == Some(Directory) && PlainName(name)
    requires Lookup(fs, p + [name]).Some? && !Lookup(fs, p + [name]).value.Symlink?
    ensures Physical(fs, p + [name])
  {
    assert forall i :: 0 <= i <= |p| ==> (p + [name])[..i] == p[..i];
    assert p[..|p|] == p;
  }

  /** Canonicalization ends at a physical place, whatever links lie on the way. */
  lemma {:induction false} ResolveIsPhysical(fs: FileSystem, at: Path, todo: seq<string>, links: nat)
    requires Physical(fs, at)
    ensures Resolve(fs, at, todo, links).Some? ==> Physical(fs, Resolve(fs, at, todo, links).value.0)
    decreases links, |todo|
  {
    if todo != [] && Lookup(fs, at) == Some(Directory) {
      var name, rest := todo[0], todo[1..];
      if name == "" || name == "." {
        ResolveIsPhysical(fs, at, rest, links);
      } else if name == ".." {
        PhysicalParent(fs, at);
        ResolveIsPhysical(fs, Parent(at), rest, links);
      } else {
        match Lookup(fs, at + [name])
        case None =>
        case Some(Symlink(absolute, target)) =>
          if links != 0 {
            ResolveIsPhysical(fs, if absolute then [] else at, target + rest, links - 1);
          }
        case Some(_) =>
          PhysicalChild(fs, at, name);
          ResolveIsPhysical(fs, at + [name], rest, links);
      }
    }
  }

  /** A physical path resolves to itself. */
  lemma {:induction false} PhysicalIsFixed(fs: FileSystem, at: Path, todo: seq<string>, links: nat)
    requires Physical(fs, at + todo)
    ensures Resolve(fs, at, todo, links) == Some((at + todo, links))
    decreases |todo|
  {
    if todo == [] {
      assert at + todo == at;
    } else {
      var p := at + todo;
      assert p[..|at|] == at && p[|at|] == todo[0];
      assert p[..|at| + 1] == at + [todo[0]];
      assert (at + [todo[0]]) + todo[1..] == p;
      if |todo| == 1 {
        assert at + [todo[0]] == p;
      }
      PhysicalIsFixed(fs, at + [todo[0]], todo[1..], links);
    }
  }

  /** Resolution goes through its prefixes. */
  lemma {:induction false} ResolveSplits(fs: FileSystem, at: Path, a: seq<string>, b: seq<string>, links: nat)
    ensures Resolve(fs, at, a + b, links) ==
            match Resolve(fs, at, a, links)
            case None => None
            case Some((p, left)) => Resolve(fs, p, b, left)
    decreases links, |a|
  {
    if a == [] {
      assert a + b == b;
    } else if Lookup(fs, at) == Some(Directory) {
      var name, rest := a[0], a[1..];
      assert (a + b)[0] == name && (a + b)[1..] == rest + b;
      if name == "" || name == "." {
        ResolveSplits(fs, at, rest, b, links);
      } else if name == ".." {
        ResolveSplits(fs, Parent(at), rest, b, links);
      } else {
        match Lookup(fs, at + [name])
        case None =>
        case Some(Symlink(absolute, target)) =>
          if links != 0 {
            assert target + (rest + b) == (target + rest) + b;
            ResolveSplits(fs, if absolute then [] else at, target + rest, b, links - 1);
          }
        case Some(_) =>
          ResolveSplits(fs, at + [name], rest, b, links);
      }
    }
  }

  /** A larger link budget changes nothing but what is left of it. */
  lemma {:induction false} MoreLinks(fs: FileSystem, at: Path, todo: seq<string>, links: nat, extra: nat)
    requires Resolve(fs, at, todo, links).Some?
    ensures var (p, left) := Resolve(fs, at, todo, links).value;
            Resolve(fs, at, todo, links + extra) == Some((p, left + extra))
    decreases links, |todo|
  {
    if todo != [] {
      var name, rest := todo[0], todo[1..];
      if name == "" || name == "." {
        MoreLinks(fs, at, rest, links, extra);
      } else if name == ".." {
        MoreLinks(fs, Parent(at), rest, links, extra);
      } else {
        match Lookup(fs, at + [name])
        case Some(Symlink(absolute, target)) =>
          MoreLinks(fs, if absolute then [] else at, target + rest, links - 1, extra);
        case Some(_) =>
          MoreLinks(fs, at + [name], rest, links, extra);
      }
    }
  }

  /** Reaching a directory over links uses up budget, but leads to where its
      canonical path leads. */
  lemma SameEntry(fs: FileSystem, dir: Path, name: string)
    requires Canonicalize(fs, dir).Some?
    ensures Canonicalize(fs, dir + [name]).Some? ==>
              Canonicalize(fs, Canonicalize(fs, dir).value + [name]) == Canonicalize(fs, dir + [name])
  {
    var (base, left) := Resolve(fs, [], dir, MAX_LINKS).value;
    ResolveSplits(fs, [], dir, [name], MAX_LINKS);
    CanonicalIsPhysical(fs, dir);
    FromPhysical(fs, base, [name], MAX_LINKS);
    if Resolve(fs, base, [name], left).Some? {
      LinksNeverGrow(fs, [], dir, MAX_LINKS);
      MoreLinks(fs, base, [name], left, MAX_LINKS - left);
    }
  }

  lemma {:induction false} LinksNeverGrow(fs: FileSystem, at: Path, todo: seq<string>, links: nat)
    requires Resolve(fs, at, todo, links).Some?
    ensures Resolve(fs, at, todo, links).value.1 <= links
    decreases links, |todo|
  {
    if todo != [] {
      var name, rest := todo[0], todo[1..];
      if name == "" || name == "." {
        LinksNeverGrow(fs, at, rest, links);
      } else if name == ".." {
        LinksNeverGrow(fs, Parent(at), rest, links);
      } else {
        match Lookup(fs, at + [name])
        case Some(Symlink(absolute, target)) =>
          LinksNeverGrow(fs, if absolute then [] else at, target + rest, links - 1);
        case Some(_) =>
          LinksNeverGrow(fs, at + [name], rest, links);
      }
    }
  }

  lemma CanonicalIsPhysical(fs: FileSystem, p: Path)
    ensures Canonicalize(fs, p).Some? ==>
              && Physical(fs, Canonicalize(fs, p).value)
              && Canonicalize(fs, Canonicalize(fs, p).value) == Canonicalize(fs, p)
  {
    ResolveIsPhysical(fs, [], p, MAX_LINKS);
    if Canonicalize(fs, p).Some? {
      var q := Canonicalize(fs, p).value;
      assert [] + q == q;
      PhysicalIsFixed(fs, [], q, MAX_LINKS);
    }
  }

  /** Appending one plain name of a non-link to a path that resolves. */
  lemma CanonicalChild(fs: FileSystem, dir: Path, name: string)
    requires Canonicalize(fs, dir).Some? && PlainName(name)
    ensures var base := Canonicalize(fs, dir).value;
            var entry := Lookup(fs, base + [name]);
            && (Lookup(fs, base) == Some(Directory) && entry.Some? && !entry.value.Symlink? ==>
                  Canonicalize(fs, dir + [name]) == Some(base + [name]))
            && (entry == None ==> Canonicalize(fs, dir + [name]) == None)
  {
    ResolveSplits(fs, [], dir, [name], MAX_LINKS);
    assert [name][1..] == [];
  }

  // ----- what the components of a path mean -----

  /** Empty components and "." stay where they are. */
  lemma DotStays(fs: FileSystem, dir: Path, dot: string, rest: seq<string>, links: nat)
    requires Physical(fs, dir) && Lookup(fs, dir) == Some(Directory) && (dot == "." || dot == "")
    ensures Resolve(fs, [], dir + [dot] + rest, links) == Resolve(fs, [], dir + rest, links)
  {
    FromPhysical(fs, dir, [dot] + rest, links);
    FromPhysical(fs, dir, rest, links);
    assert dir + [dot] + rest == dir + ([dot] + rest) && ([dot] + rest)[1..] == rest;
  }

  /** Into a directory and back by ".." leads nowhere. */
  lemma ThereAndBack(fs: FileSystem, dir: Path, name: string, rest: seq<string>, links: nat)
    requires Physical(fs, dir + [name]) && Lookup(fs, dir + [name]) == Some(Directory)
    ensures Resolve(fs, [], dir + [name, ".."] + rest, links) == Resolve(fs, [], dir + rest, links)
  {
    var inner := dir + [name];
    PhysicalParent(fs, inner);
    assert inner[..|inner| - 1] == dir;
    FromPhysical(fs, inner, [".."] + rest, links);
    FromPhysical(fs, dir, rest, links);
    assert dir + [name, ".."] + rest == inner + ([".."] + rest) && ([".."] + rest)[1..] == rest;
  }

  /** A symbolic link can be replaced by its target, at the price of one link of the
      budget: the target takes the link's place if it is relative, and starts at the
      root if it is absolute. */
  lemma LinkIsItsTarget(fs: FileSystem, dir: Path, name: string, absolute: bool, target: seq<string>,
                        rest: seq<string>, links: nat)
    requires Physical(fs, dir) && Lookup(fs, dir) == Some(Directory) && PlainName(name)
    requires Lookup(fs, dir + [name]) == Some(Symlink(absolute, target))
    ensures Resolve(fs, [], dir + [name] + rest, links + 1) ==
            if absolute then Resolve(fs, [], target + rest, links) else Resolve(fs, [], dir + target + rest, links)
    ensures Resolve(fs, [], dir + [name] + rest, 0) == None
  {
    FromPhysical(fs, dir, [name] + rest, links + 1);
    FromPhysical(fs, dir, [name] + rest, 0);
    FromPhysical(fs, dir, target + rest, links);
    assert dir + [name] + rest == dir + ([name] + rest) && ([name] + rest)[1..] == rest;
    assert dir + target + rest == dir + (target + rest);
  }

  lemma FromPhysical(fs: FileSystem, dir: Path, rest: seq<string>, links: nat)
    requires Physical(fs, dir)
    ensures Resolve(fs, [], dir + rest, links) == Resolve(fs, dir, rest, links)
  {
    assert [] + dir == dir;
    ResolveSplits(fs, [], dir, rest, links);
    PhysicalIsFixed(fs, [], dir, links);
  }

  function ReadFile(fs: FileSystem, p: Path): Option<string> {
    match Canonicalize(fs, p)
    case None => None
    case Some(q) => if Lookup(fs, q).Some? && Lookup(fs, q).value.File? then Lookup(fs, q).value.text else None
  }

  // ----- the containment check -----

  datatype PathError = BaseUnresolved | CandidateUnresolved | Traversal

  function EnsurePathWithinDirectory(fs: FileSystem, candidate: Path, dir: Path): Result<Path, PathError> {
    match Canonicalize(fs, dir)
    case None => Err(BaseUnresolved)
    case Some(base) =>
      match Canonicalize(fs, candidate)
      case None => Err(CandidateUnresolved)
      case Some(p) => if base <= p then Ok(p) else Err(Traversal)
  }

  /** What the check accepts lies in the inventory physically: the path returned
      is the directory's physical place plus plain names, follows no link, and
      opening it opens exactly that place. */
  lemma AcceptedPathIsInside(fs: FileSystem, candidate: Path, dir: Path)
    ensures var r := EnsurePathWithinDirectory(fs, candidate, dir);
            r.Ok? ==>
              && Canonicalize(fs, dir).Some? && Canonicalize(fs, dir).value <= r.value
              && Physical(fs, r.value)
              && Canonicalize(fs, r.value) == Some(r.value) == Canonicalize(fs, candidate)
  {
    CanonicalIsPhysical(fs, candidate);
  }

  // ----- names pushed onto a path -----

  /** The components of a path string, split at every '/'. */
  function Components(s: string): (r: seq<string>)
    ensures |r| >= 1
  {
    if s == "" then [""]
    else
      var later := Components(s[1..]);
      if s[0] == '/' then [""] + later else [[s[0]] + later[0]] + later[1..]
  }

  function JoinedBySlashes(parts: seq<string>): string {
    if parts == [] then "" else if |parts| == 1 then parts[0] else parts[0] + "/" + JoinedBySlashes(parts[1..])
  }

  /** Splitting at slashes: the components hold none, and joined by slashes they are
      the string again. */
  lemma {:induction false} ComponentsJoinBack(s: string)
    ensures forall c :: c in Components(s) ==> '/' !in c
    ensures JoinedBySlashes(Components(s)) == s
  {
    if s != "" {
      var later := Components(s[1..]);
      ComponentsJoinBack(s[1..]);
      assert s == [s[0]] + s[1..];
      if s[0] == '/' {
        assert ([""] + later)[1..] == later;
      } else {
        var all := [[s[0]] + later[0]] + later[1..];
        assert all[1..] == later[1..] && later[0] in later;
        if |later| > 1 {
          assert ([s[0]] + later[0]) + "/" + JoinedBySlashes(later[1..]) ==
                 [s[0]] + (later[0] + "/" + JoinedBySlashes(later[1..]));
        }
      }
    }
  }

  lemma {:induction false} ComponentsWithoutSlash(s: string)
    requires '/' !in s
    ensures Components(s) == [s]
  {
    if s != "" {
      ComponentsWithoutSlash(s[1..]);
      assert [s[0]] + s[1..] == s;
    }
  }

  /** Pushing onto a path buffer: an absolute string replaces everything. */
  function Push(dir: Path, s: string): Path {
    if s != "" && s[0] == '/' then Components(s) else dir + Components(s)
  }

  /** The path pushed onto depends on the buffer exactly if the string does not begin
      with a slash; then it continues the buffer. */
  lemma PushedPath(dir: Path, other: Path, s: string)
    requires dir != other
    ensures (Push(dir, s) != Push(other, s)) <==> !("/" <= s)
    ensures Push(dir, s)[|Push(dir, s)| - |Components(s)|..] == Components(s)
    ensures !("/" <= s) ==> dir <= Push(dir, s)
  {
    SameEndSameStart(dir, other, Components(s));
  }

  lemma SameEndSameStart(a: Path, b: Path, end: Path)
    ensures a + end == b + end ==> a == b
  {
    if a + end == b + end {
      assert a == (a + end)[..|a|] == (b + end)[..|b|] == b;
    }
  }

  predicate ValidateHostname(name: string) {
    && name != ""
    && '/' !in name
    && '\\' !in name
    && !(exists i :: 0 <= i < |name| - 1 && name[i] == '.' && name[i + 1] == '.')
    && '\0' !in name
  }

  /** Exactly the names that are not empty and hold no slash, backslash or NUL and no
      two dots in a row. */
  lemma HostnamesExactly(name: string)
    ensures ValidateHostname(name) <==>
            && |name| > 0
            && (forall c :: c in name ==> c != '/' && c != '\\' && c != '\0')
            && !exists a, b :: name == a + ".." + b
  {
    if a, b :| name == a + ".." + b {
      assert name[|a|] == ".."[0] == '.' && name[|a| + 1] == ".."[1] == '.';
    }
    if i :| 0 <= i < |name| - 1 && name[i] == '.' && name[i + 1] == '.' {
      assert name == name[..i] + ".." + name[i + 2..];
    }
  }

  /** A slash-free name denotes the directory's entry of that name: a plain
      entry is accepted, a missing one does not resolve. */
  lemma NamedEntry(fs: FileSystem, dir: Path, name: string)
    requires '/' !in name && PlainName(name)
    requires Canonicalize(fs, dir).Some? && Lookup(fs, Canonicalize(fs, dir).value) == Some(Directory)
    ensures var place := Canonicalize(fs, dir).value + [name];
            var r := EnsurePathWithinDirectory(fs, Push(dir, name), dir);
            && (Lookup(fs, place) == None ==> r == Err(CandidateUnresolved))
            && (Lookup(fs, place).Some? && !Lookup(fs, place).value.Symlink? ==> r == Ok(place))
  {
    ComponentsWithoutSlash(name);
    CanonicalChild(fs, dir, name);
  }

  /** The two defences agree. For a name that passes `ValidateHostname`, the
      containment check accepts the plain file of that name, and reports a
      traversal only if the entry of that name is a symbolic link. */
  lemma DefencesAgree(fs: FileSystem, inventory: Path, name: string)
    requires ValidateHostname(name)
    requires Canonicalize(fs, inventory).Some? && Lookup(fs, Canonicalize(fs, inventory).value) == Some(Directory)
    ensures var place := Canonicalize(fs, inventory).value + [name + ".toml"];
            var entry := Lookup(fs, place);
            var r := EnsurePathWithinDirectory(fs, Push(inventory, name + ".toml"), inventory);
            && (entry.Some? && entry.value.File? ==> r == Ok(place))
            && (entry == None ==> r == Err(CandidateUnresolved))
            && (r == Err(Traversal) ==> entry.Some? && entry.value.Symlink?)
  {
    NamedEntry(fs, inventory, name + ".toml");
  }
}
