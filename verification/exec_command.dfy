/** Splitting the command of an SSH exec request into words. The payload is
    taken after its lossy decoding to text. */
module ExecCommand {
  /** The characters with the Unicode property White_Space. */
  predicate IsSpace(c: char) {
    || '\U{0009}' <= c <= '\U{000D}' || c == ' ' || c == '\U{0085}' || c == '\U{00A0}' || c == '\U{1680}'
    || '\U{2000}' <= c <= '\U{200A}' || c == '\U{2028}' || c == '\U{2029}' || c == '\U{202F}'
    || c == '\U{205F}' || c == '\U{3000}'
  }

  /** The words of `s`, of which `word` is the beginning of the first. */
  function SplitFrom(space: char -> bool, word: string, s: string): seq<string>
    decreases s
  {
    var finished := if word == "" then [] else [word];
    if s == "" then finished
    else if space(s[0]) then finished + SplitFrom(space, "", s[1..])
    else SplitFrom(space, word + [s[0]], s[1..])
  }

  function SplitWhitespace(s: string): seq<string> {
    SplitFrom(IsSpace, "", s)
  }

  /** The command name and its arguments. */
  function ParseExecCommand(command: string): (string, seq<string>) {
    var parts := SplitWhitespace(command);
    if parts == [] then ("", []) else (parts[0], parts[1..])
  }

  predicate SpaceFree(space: char -> bool, w: string) {
    forall i :: 0 <= i < |w| ==> !space(w[i])
  }

  predicate IsWord(w: string) {
    w != "" && SpaceFree(IsSpace, w)
  }

  function Concat(ws: seq<string>): string {
    if ws == [] then "" else ws[0] + Concat(ws[1..])
  }

  function WithoutSpaces(space: char -> bool, s: string): string {
    if s == "" then ""
    else (if space(s[0]) then "" else [s[0]]) + WithoutSpaces(space, s[1..])
  }

  lemma {:induction false} SplitFromLosesNothing(space: char -> bool, word: string, s: string)
    requires SpaceFree(space, word)
    ensures forall w :: w in SplitFrom(space, word, s) ==> w != "" && SpaceFree(space, w)
    ensures Concat(SplitFrom(space, word, s)) == word + WithoutSpaces(space, s)
    decreases |s|
  {
    if s == "" {
      assert word + "" == word;
    } else if space(s[0]) {
      SplitFromLosesNothing(space, "", s[1..]);
      var later := SplitFrom(space, "", s[1..]);
      assert ([word] + later)[1..] == later;
      assert [] + later == later;
    } else {
      SplitFromLosesNothing(space, word + [s[0]], s[1..]);
      assert (word + [s[0]]) + WithoutSpaces(space, s[1..]) == word + ([s[0]] + WithoutSpaces(space, s[1..]));
    }
  }

  /** Splitting loses nothing but spaces, and yields proper words only. */
  lemma SplitYieldsAllWords(s: string)
    ensures forall w :: w in SplitWhitespace(s) ==> IsWord(w)
    ensures Concat(SplitWhitespace(s)) == WithoutSpaces(IsSpace, s)
  {
    SplitFromLosesNothing(IsSpace, "", s);
    assert "" + WithoutSpaces(IsSpace, s) == WithoutSpaces(IsSpace, s);
  }

  function Join(ws: seq<string>): string {
    if ws == [] then "" else if |ws| == 1 then ws[0] else ws[0] + " " + Join(ws[1..])
  }

  lemma {:induction false} WordIsCollected(space: char -> bool, word: string, w: string, rest: string)
    requires SpaceFree(space, w)
    ensures SplitFrom(space, word, w + rest) == SplitFrom(space, word + w, rest)
    decreases |w|
  {
    if w == "" {
      assert w + rest == rest && word + w == word;
    } else {
      assert (w + rest)[1..] == w[1..] + rest;
      assert (word + [w[0]]) + w[1..] == word + w;
      WordIsCollected(space, word + [w[0]], w[1..], rest);
    }
  }

  lemma FirstWord(space: char -> bool, w: string, rest: string)
    requires w != "" && SpaceFree(space, w) && rest != "" && space(rest[0])
    ensures SplitFrom(space, "", w + rest) == [w] + SplitFrom(space, "", rest[1..])
  {
    WordIsCollected(space, "", w, rest);
    assert "" + w == w;
  }

  lemma OnlyWord(space: char -> bool, w: string)
    requires w != "" && SpaceFree(space, w)
    ensures SplitFrom(space, "", w) == [w]
  {
    WordIsCollected(space, "", w, "");
    assert w + "" == w && "" + w == w;
  }

  lemma {:induction false} SplitJoinedWords(space: char -> bool, ws: seq<string>)
    requires space(' ')
    requires forall i :: 0 <= i < |ws| ==> ws[i] != "" && SpaceFree(space, ws[i])
    ensures SplitFrom(space, "", Join(ws)) == ws
  {
    if |ws| == 1 {
      OnlyWord(space, ws[0]);
    } else if |ws| > 1 {
      var later := Join(ws[1..]);
      SplitJoinedWords(space, ws[1..]);
      FirstWord(space, ws[0], " " + later);
      assert (" " + later)[1..] == later;
      assert ws[0] + " " + later == ws[0] + (" " + later);
    }
  }

  /** Words joined by single spaces come back as the command name and arguments. */
  lemma JoinedCommandParses(ws: seq<string>)
    requires ws != [] && forall w :: w in ws ==> IsWord(w)
    ensures ParseExecCommand(Join(ws)) == (ws[0], ws[1..])
  {
    forall i | 0 <= i < |ws|
      ensures ws[i] != "" && SpaceFree(IsSpace, ws[i])
    {
      assert IsWord(ws[i]);
    }
    SplitJoinedWords(IsSpace, ws);
  }

  // ----- which commands have a given name -----

  /** `name` stands behind a gap of spaces, and ends at `rest`. */
  predicate Begins(space: char -> bool, command: string, gap: string, name: string, rest: string) {
    && command == gap + (name + rest)
    && (forall i :: 0 <= i < |gap| ==> space(gap[i]))
    && name != "" && SpaceFree(space, name)
    && (rest == "" || space(rest[0]))
  }

  lemma {:induction false} GapIsSkipped(space: char -> bool, gap: string, s: string)
    requires forall i :: 0 <= i < |gap| ==> space(gap[i])
    ensures SplitFrom(space, "", gap + s) == SplitFrom(space, "", s)
    decreases |gap|
  {
    if gap == "" {
      assert gap + s == s;
    } else {
      assert (gap + s)[1..] == gap[1..] + s;
      GapIsSkipped(space, gap[1..], s);
    }
  }

  lemma {:induction false} WordEnds(space: char -> bool, word: string, s: string) returns (w: string, rest: string)
    requires word != ""
    ensures s == w + rest && SpaceFree(space, w) && (rest == "" || space(rest[0]))
    ensures SplitFrom(space, word, s) != [] && SplitFrom(space, word, s)[0] == word + w
    decreases |s|
  {
    if s == "" || space(s[0]) {
      w, rest := "", s;
      assert word + w == word;
    } else {
      w, rest := WordEnds(space, word + [s[0]], s[1..]);
      assert (word + [s[0]]) + w == word + ([s[0]] + w);
      w := [s[0]] + w;
      assert s == [s[0]] + s[1..];
    }
  }

  lemma {:induction false} WordBegins(space: char -> bool, s: string) returns (gap: string, name: string, rest: string)
    requires SplitFrom(space, "", s) != []
    ensures Begins(space, s, gap, name, rest) && name == SplitFrom(space, "", s)[0]
    decreases |s|
  {
    if space(s[0]) {
      gap, name, rest := WordBegins(space, s[1..]);
      gap := [s[0]] + gap;
      assert s == [s[0]] + s[1..];
    } else {
      var w, after := WordEnds(space, "" + [s[0]], s[1..]);
      gap, name, rest := "", [s[0]] + w, after;
      assert s == [s[0]] + s[1..];
    }
  }

  /** A command has the name `name` exactly if the name is its first word: only
      spaces before it, and a space or nothing behind it. */
  lemma CommandNameExactly(command: string, name: string)
    requires name != ""
    ensures ParseExecCommand(command).0 == name <==> exists gap, rest :: Begins(IsSpace, command, gap, name, rest)
  {
    if ParseExecCommand(command).0 == name {
      var gap, w, rest := WordBegins(IsSpace, command);
      assert Begins(IsSpace, command, gap, name, rest);
    }
    if gap, rest :| Begins(IsSpace, command, gap, name, rest) {
      GapIsSkipped(IsSpace, gap, name + rest);
      if rest == "" {
        assert name + rest == name;
        OnlyWord(IsSpace, name);
      } else {
        FirstWord(IsSpace, name, rest);
      }
    }
  }
}
