/** Which template a user gets, and how it becomes certificate parameters. */
module UserDefaultsReader {
  import opened Base
  import opened Paths
  import opened TomlLexing
  import opened Usernames

  const MAX_TEMPLATE_SIZE: nat := 64 * 1024

  datatype UserDefaults = UserDefaults(validityInDays: u16, principals: seq<string>, extensions: seq<string>)

  /** An entry of the user list. */
  datatype PathRef = Relative(components: Path) | Absolute(components: Path)

  /** TOML and template syntax, kept abstract; templates are text and
      placeholders. `byteLength` is the UTF-8 length. */
  datatype TemplateFormats = TemplateFormats(
    parseUsers: string -> Option<map<string, PathRef>>,
    byteLength: string -> nat,
    compile: string -> Option<Template>,
    parseDefaults: string -> Option<UserDefaults>)

  datatype UserFiles = UserFiles(fs: FileSystem, userList: Path, defaultTemplate: Path)

  datatype DefaultsError = BadUserList | NoTemplate | TemplateTooLarge | BadTemplate | BadDefaults

  /** A listed user's template, relative to the user list's directory, or the
      default for everybody else. */
  function TemplatePath(files: UserFiles, users: map<string, PathRef>, user: string): Path {
    if user !in users then files.defaultTemplate
    else match users[user]
      case Relative(components) => Parent(files.userList) + components
      case Absolute(components) => components
  }

  function Users(f: TemplateFormats, files: UserFiles): Option<map<string, PathRef>> {
    match ReadFile(files.fs, files.userList)
    case None => None
    case Some(text) => f.parseUsers(text)
  }

  /** The template text that applies to `user`, before any check of it. */
  function TemplateText(f: TemplateFormats, files: UserFiles, user: string): Result<string, DefaultsError> {
    match Users(f, files)
    case None => Err(BadUserList)
    case Some(users) =>
      match ReadFile(files.fs, TemplatePath(files, users, user))
      case None => Err(NoTemplate)
      case Some(text) => if f.byteLength(text) > MAX_TEMPLATE_SIZE then Err(TemplateTooLarge) else Ok(text)
  }

  function DefaultsFor(f: TemplateFormats, files: UserFiles, user: string): Result<UserDefaults, DefaultsError> {
    match TemplateText(f, files, user)
    case Err(e) => Err(e)
    case Ok(text) =>
      match f.compile(text)
      case None => Err(BadTemplate)
      case Some(template) =>
        match f.parseDefaults(Render(template, user))
        case None => Err(BadDefaults)
        case Some(defaults) => Ok(defaults)
  }

  // ----- what it means -----

  /** The user list can be read, and these are its entries. */
  predicate Lists(f: TemplateFormats, files: UserFiles, users: map<string, PathRef>) {
    && ReadFile(files.fs, files.userList).Some?
    && f.parseUsers(ReadFile(files.fs, files.userList).value) == Some(users)
  }

  /** The template at `p` applies to `user`: his own, if he is listed, relative to
      the directory of the list unless it is absolute; else the default. */
  predicate AppliesTo(files: UserFiles, users: map<string, PathRef>, user: string, p: Path) {
    if user in users then
      match users[user]
      case Absolute(components) => p == components
      case Relative(components) =>
        files.userList != [] && p == files.userList[..|files.userList| - 1] + components
    else p == files.defaultTemplate
  }

  /** This text is the template of `user`. */
  ghost predicate TemplateOf(f: TemplateFormats, files: UserFiles, user: string, text: string) {
    exists users, p :: Lists(f, files, users) && AppliesTo(files, users, user, p) && ReadFile(files.fs, p) == Some(text)
  }

  /** The parameters come from the user's template, which is within the size bound,
      parsed from text that has, for an allowed name, the strings of the template,
      one for one, with the name substituted inside them. */
  ghost predicate FromTemplate(f: TemplateFormats, files: UserFiles, user: string, d: UserDefaults) {
    exists text :: TemplateOf(f, files, user, text) && Yields(f, text, user, d)
  }

  ghost predicate Yields(f: TemplateFormats, text: string, user: string, d: UserDefaults) {
    && f.byteLength(text) <= 65_536 && f.compile(text).Some?
    && var t := f.compile(text).value;
       && f.parseDefaults(Render(t, user)) == Some(d)
       && (ValidateUsername(user) && HolesQuoted(START, Symbols(t)) ==> KeepsStructure(t, user))
  }

  lemma OnlyOneTemplateApplies(f: TemplateFormats, files: UserFiles, users: map<string, PathRef>, user: string)
    requires Lists(f, files, users)
    ensures AppliesTo(files, users, user, TemplatePath(files, users, user))
    ensures forall text :: TemplateOf(f, files, user, text) <==>
                           ReadFile(files.fs, TemplatePath(files, users, user)) == Some(text)
  {
    var p := TemplatePath(files, users, user);
    forall q | AppliesTo(files, users, user, q)
      ensures q == p
    {
    }
    forall text
      ensures TemplateOf(f, files, user, text) <==> ReadFile(files.fs, p) == Some(text)
    {
      assert ReadFile(files.fs, p) == Some(text) ==> Lists(f, files, users) && AppliesTo(files, users, user, p);
    }
  }

  lemma TemplateTextIsTheUsers(f: TemplateFormats, files: UserFiles, user: string, text: string)
    ensures TemplateOf(f, files, user, text) && f.byteLength(text) <= MAX_TEMPLATE_SIZE <==>
            TemplateText(f, files, user) == Ok(text)
  {
    if Users(f, files).Some? {
      OnlyOneTemplateApplies(f, files, Users(f, files).value, user);
    }
  }

  /** Parameters are read exactly as the files say. */
  lemma DefaultsAreTheTemplates(f: TemplateFormats, files: UserFiles, user: string, d: UserDefaults)
    ensures DefaultsFor(f, files, user) == Ok(d) <==> FromTemplate(f, files, user, d)
  {
    if DefaultsFor(f, files, user) == Ok(d) {
      var text := TemplateText(f, files, user).value;
      TemplateTextIsTheUsers(f, files, user, text);
      var t := f.compile(text).value;
      if ValidateUsername(user) && HolesQuoted(START, Symbols(t)) {
        RenderingPreservesStructure(t, user);
      }
      assert Yields(f, text, user, d);
    }
    if FromTemplate(f, files, user, d) {
      var text :| TemplateOf(f, files, user, text) && Yields(f, text, user, d);
      TemplateTextIsTheUsers(f, files, user, text);
    }
  }

  /** Only the own entry matters. As long as the user's entry, or its absence, and
      the template it leads to stay the same, neither other entries nor, for a
      listed user, the default template change his parameters. */
  lemma OnlyOwnEntryMatters(f: TemplateFormats, files: UserFiles, files': UserFiles,
                            users: map<string, PathRef>, users': map<string, PathRef>, user: string)
    requires Lists(f, files, users) && Lists(f, files', users') && files'.userList == files.userList
    requires user in users <==> user in users'
    requires if user in users then users[user] == users'[user] else files.defaultTemplate == files'.defaultTemplate
    requires forall p :: AppliesTo(files, users, user, p) ==> ReadFile(files.fs, p) == ReadFile(files'.fs, p)
    ensures DefaultsFor(f, files, user) == DefaultsFor(f, files', user)
  {
    var p := TemplatePath(files, users, user);
    assert AppliesTo(files, users, user, p);
    assert TemplatePath(files', users', user) == p;
  }

  method ReadUserDefaults(f: TemplateFormats, files: UserFiles, user: string)
    returns (r: Result<UserDefaults, DefaultsError>)
    ensures r == DefaultsFor(f, files, user)
    ensures forall d :: r == Ok(d) <==> FromTemplate(f, files, user, d)
    ensures r == Err(BadUserList) <==> forall users :: !Lists(f, files, users)
    ensures r == Err(NoTemplate) <==>
            (exists users :: Lists(f, files, users)) && forall text :: !TemplateOf(f, files, user, text)
    ensures r == Err(TemplateTooLarge) <==>
            exists text :: TemplateOf(f, files, user, text) && f.byteLength(text) > 65_536
  {
    var userListText := ReadFile(files.fs, files.userList);
    ReadsAsTheFilesSay(f, files, user);
    if userListText == None {
      return Err(BadUserList);
    }
    var users := f.parseUsers(userListText.value);
    if users == None {
      return Err(BadUserList);
    }
    var templatePath := files.defaultTemplate;
    if user in users.value {
      match users.value[user] {
        case Relative(components) => templatePath := Parent(files.userList) + components;
        case Absolute(components) => templatePath := components;
      }
    }
    var buffer := ReadFile(files.fs, templatePath);
    if buffer == None {
      return Err(NoTemplate);
    }
    if f.byteLength(buffer.value) > MAX_TEMPLATE_SIZE {
      return Err(TemplateTooLarge);
    }
    var template := f.compile(buffer.value);
    if template == None {
      return Err(BadTemplate);
    }
    var defaults := f.parseDefaults(Render(template.value, user));
    r := if defaults == None then Err(BadDefaults) else Ok(defaults.value);
  }

  lemma ReadsAsTheFilesSay(f: TemplateFormats, files: UserFiles, user: string)
    ensures var r := DefaultsFor(f, files, user);
            && (forall d :: r == Ok(d) <==> FromTemplate(f, files, user, d))
            && (r == Err(BadUserList) <==> forall users :: !Lists(f, files, users))
            && (r == Err(NoTemplate) <==>
                  (exists users :: Lists(f, files, users)) && forall text :: !TemplateOf(f, files, user, text))
            && (r == Err(TemplateTooLarge) <==>
                  exists text :: TemplateOf(f, files, user, text) && f.byteLength(text) > 65_536)
  {
    forall d
      ensures DefaultsFor(f, files, user) == Ok(d) <==> FromTemplate(f, files, user, d)
    {
      DefaultsAreTheTemplates(f, files, user, d);
    }
    ErrorsAsTheFilesSay(f, files, user);
  }

  lemma ErrorsAsTheFilesSay(f: TemplateFormats, files: UserFiles, user: string)
    ensures var r := TemplateText(f, files, user);
            && (r == Err(BadUserList) <==> forall users :: !Lists(f, files, users))
            && (r == Err(NoTemplate) <==>
                  (exists users :: Lists(f, files, users)) && forall text :: !TemplateOf(f, files, user, text))
            && (r == Err(TemplateTooLarge) <==>
                  exists text :: TemplateOf(f, files, user, text) && f.byteLength(text) > 65_536)
  {
    if Users(f, files).Some? {
      var users := Users(f, files).value;
      assert Lists(f, files, users);
      OnlyOneTemplateApplies(f, files, users, user);
      var read := ReadFile(files.fs, TemplatePath(files, users, user));
      assert read.Some? ==> TemplateOf(f, files, user, read.value);
    }
  }
}
