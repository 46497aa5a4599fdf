/** The urfave/cli adapter: the help printer that urfave calls with a command
    or an app, the usage, description, authors, commands and flags sections,
    and the in-place rewrite of flag names into their dashed forms. urfave's
    own bookkeeping (`VisibleCommands`, `VisibleFlags`, `Names`, a flag's
    `String`) is taken as input data. */
module UrfaveCli {
  import opened GoStrings
  import opened Render

  /** A flag as the adapter reads it: `Names()` and `String()`. The text is
      urfave's rendering of the flag, whose tab-separated second field is the
      usage column. */
  datatype Flag = Flag(names: seq<string>, text: string)

  datatype Author = Author(name: string, email: string)

  /** A `*cli.Command`; `flags` are its visible flags. */
  datatype Command = Command(
    name: string,
    helpName: string,
    usage: string,
    usageText: string,
    description: string,
    aliases: seq<string>,
    flags: seq<Flag>)

  /** A `*cli.App`; `commands` and `flags` are the visible ones. */
  datatype App = App(
    name: string,
    helpName: string,
    version: string,
    usage: string,
    usageText: string,
    description: string,
    authors: seq<Author>,
    commands: seq<Command>,
    flags: seq<Flag>,
    copyright: string)

  /** What urfave hands to the help printer: a command, an app, or anything else. */
  datatype Payload = CommandPayload(command: Command) | AppPayload(app: App) | OtherPayload

  // ---------------------------------------------------------------------
  // Flag names
  // ---------------------------------------------------------------------

  /** A flag name as it is shown: two dashes before a name of more than one
      byte, one dash otherwise. Go's `len(name)` counts the bytes of the
      UTF-8 encoding, so a single non-ASCII character counts as long. */
  function Dashed(name: string): string {
    if Utf8Len(name) > 1 then "--" + name else "-" + name
  }

  /** The name behind a dashed form: a long name's form is longer than two
      characters, a short name's form is at most two. A short name is empty
      or one ASCII character; a long one is a non-ASCII character or longer. */
  function Undash(shown: string): string
    requires shown != []
  {
    if |shown| > 2 then shown[2..] else shown[1..]
  }

  /** The dashes can be taken off again: no two names are shown the same way. */
  lemma UndashDashed(name: string)
    ensures Dashed(name) != [] && Undash(Dashed(name)) == name
  {
    if Utf8Len(name) > 1 {
      assert Dashed(name)[2..] == name;
    } else {
      assert Dashed(name)[1..] == name;
    }
  }

  /** Long names get "--", short names "-", and the name itself follows. For
      ASCII names "long" means more than one character. */
  lemma DashedShape(name: string)
    ensures Utf8Len(name) > 1 ==> HasPrefix(Dashed(name), "--") && Dashed(name)[2..] == name
    ensures Utf8Len(name) <= 1 ==> Dashed(name)[0] == '-' && Dashed(name)[1..] == name && |Dashed(name)| <= 2
    ensures (forall i :: 0 <= i < |name| ==> name[i] as int < 0x80) ==>
      (Dashed(name) == "--" + name <==> |name| > 1)
  {
  }

  /** A one-character name outside ASCII takes two or more bytes, so it is
      shown with two dashes: "é" becomes "--é". */
  lemma NonAsciiNameIsLong(c: char)
    requires c as int >= 0x80
    ensures Dashed([c]) == "--" + [c]
  {
    assert [c][1..] == [];
  }

  /** Every name in its dashed form, in the original order: each shown name
      starts with a dash and gives back the name at the same position. */
  function DashedNames(names: seq<string>): (r: seq<string>)
    ensures |r| == |names|
    ensures forall i :: 0 <= i < |r| ==> r[i] != [] && r[i][0] == '-' && Undash(r[i]) == names[i]
  {
    UndashAll(names);
    seq(|names|, i requires 0 <= i < |names| => Dashed(names[i]))
  }

  lemma UndashAll(names: seq<string>)
    ensures forall i :: 0 <= i < |names| ==>
      Dashed(names[i]) != [] && Dashed(names[i])[0] == '-' && Undash(Dashed(names[i])) == names[i]
  {
    forall i | 0 <= i < |names|
      ensures Dashed(names[i]) != [] && Dashed(names[i])[0] == '-' && Undash(Dashed(names[i])) == names[i]
    {
      UndashDashed(names[i]);
    }
  }

  /** The loop that rewrites `flagNames[i]` in place. */
  method PrefixFlagNames(flagNames: array<string>)
    modifies flagNames
    ensures flagNames[..] == DashedNames(old(flagNames[..]))
  {
    var i := 0;
    while i < flagNames.Length
      invariant 0 <= i <= flagNames.Length
      invariant forall j :: 0 <= j < i ==> flagNames[j] == Dashed(old(flagNames[j]))
      invariant forall j :: i <= j < flagNames.Length ==> flagNames[j] == old(flagNames[j])
    {
      var name := flagNames[i];
      if Utf8Len(name) > 1 {
        flagNames[i] := "--" + name;
      } else {
        flagNames[i] := "-" + name;
      }
      i := i + 1;
    }
  }

  /** The names column of a flag row. */
  function FlagNamesLabel(names: seq<string>): string {
    Join(DashedNames(names), ", ")
  }

  /** The usage column of a flag row: the second tab-separated field of the
      flag's text. Go indexes `parts[1]` without a check, so a text without a
      tab is a run-time panic; here it is the precondition. */
  function FlagUsage(text: string): string
    requires '\t' in text
  {
    TabFields(text);
    Split(text, "\t")[1]
  }

  /** A text with a tab has at least two tab-separated fields. */
  lemma TabFields(text: string)
    requires '\t' in text
    ensures |Split(text, "\t")| >= 2
  {
    SplitCharCount(text, '\t');
    assert multiset(text)['\t'] >= 1;
  }

  /** The usage column is the text between the first tab and the next one,
      or the end of the text. */
  lemma FlagUsageField(spec: string, usage: string, rest: string)
    requires '\t' !in spec && '\t' !in usage
    ensures FlagUsage(spec + "\t" + usage) == usage
    ensures FlagUsage(spec + "\t" + usage + "\t" + rest) == usage
  {
    UsageIsLastField(spec, usage);
    UsageIsMiddleField(spec, usage, rest);
  }

  lemma UsageIsLastField(spec: string, usage: string)
    requires '\t' !in spec && '\t' !in usage
    ensures FlagUsage(spec + "\t" + usage) == usage
  {
    IndexCharAbsent(usage, '\t');
    SplitAfterChar(spec, '\t', usage);
  }

  lemma UsageIsMiddleField(spec: string, usage: string, rest: string)
    requires '\t' !in spec && '\t' !in usage
    ensures FlagUsage(spec + "\t" + usage + "\t" + rest) == usage
  {
    var tail := usage + "\t" + rest;
    SplitAfterChar(usage, '\t', rest);
    SplitAfterChar(spec, '\t', tail);
    assert spec + "\t" + usage + "\t" + rest == spec + "\t" + tail;
  }

  /** Every flag has a text with a tab. */
  predicate TabbedFlags(flags: seq<Flag>) {
    forall k :: 0 <= k < |flags| ==> '\t' in flags[k].text
  }

  /** One row of the flags table: the dashed names and the usage column. */
  function FlagRow(flag: Flag): Row
    requires '\t' in flag.text
  {
    Row(Plain(FlagNamesLabel(flag.names)), Plain(FlagUsage(flag.text)))
  }

  function FlagRows(flags: seq<Flag>): seq<Row>
    requires TabbedFlags(flags)
  {
    seq(|flags|, k requires 0 <= k < |flags| => FlagRow(flags[k]))
  }

  /** `urvafeCliGenerateFlagsTemplate`: nothing for no flags; otherwise the
      "Flags" header, the table and a blank line. */
  function FlagsSection(flags: seq<Flag>): (r: seq<Fragment>)
    requires TabbedFlags(flags)
    ensures SectionTitles(r) == Opt(flags != [], "Flags")
    ensures flags == [] <==> r == []
    ensures flags != [] ==> r[|r| - 1] == Text("\n\n")
  {
    if |flags| > 0 then TableSection("Flags", FlagRows(flags), "\n\n") else []
  }

  /** The body of the flags loop: split the text on tabs, rewrite a copy of
      the names in place, join them. */
  method FlagRowOf(flag: Flag) returns (row: Row)
    requires '\t' in flag.text
    ensures row == FlagRow(flag)
  {
    var parts := Split(flag.text, "\t");
    TabFields(flag.text);
    var flagNames := new string[|flag.names|](i requires 0 <= i < |flag.names| => flag.names[i]);
    assert flagNames[..] == flag.names;
    PrefixFlagNames(flagNames);
    var names := Join(flagNames[..], ", ");
    row := Row(Plain(names), Plain(parts[1]));
  }

  /** The loop that fills the flags table. */
  method FlagTableData(flags: seq<Flag>) returns (data: seq<Row>)
    requires TabbedFlags(flags)
    ensures data == FlagRows(flags)
  {
    data := [];
    var k := 0;
    while k < |flags|
      invariant 0 <= k <= |flags|
      invariant data == FlagRows(flags)[..k]
    {
      var row := FlagRowOf(flags[k]);
      assert FlagRows(flags)[..k + 1] == FlagRows(flags)[..k] + [row];
      data := data + [row];
      k := k + 1;
    }
    assert FlagRows(flags)[..|flags|] == FlagRows(flags);
  }

  /** `urvafeCliGenerateFlagsTemplate`. */
  method GenerateFlagsTemplate(flags: seq<Flag>) returns (ret: seq<Fragment>)
    requires TabbedFlags(flags)
    ensures ret == FlagsSection(flags)
  {
    ret := [];
    if |flags| > 0 {
      ret := ret + [Section("Flags")];
      var data := FlagTableData(flags);
      ret := ret + [Table(data)] + [Text("\n\n")];
    }
  }

  // ---------------------------------------------------------------------
  // Commands and authors
  // ---------------------------------------------------------------------

  /** The label of a command: its name, a space, its aliases separated by spaces. */
  function CommandLabel(c: Command): string {
    c.name + " " + Join(c.aliases, " ")
  }

  /** A label splits back into the command's name and its aliases. With no
      aliases Go still appends the space, so the label ends in one and the
      name is followed by an empty field. */
  lemma CommandLabelRoundTrip(c: Command)
    requires ' ' !in c.name
    requires forall k :: 0 <= k < |c.aliases| ==> ' ' !in c.aliases[k]
    ensures c.aliases == [] ==> CommandLabel(c) == c.name + " " && Split(CommandLabel(c), " ") == [c.name, ""]
    ensures c.aliases != [] ==> Split(CommandLabel(c), " ") == [c.name] + c.aliases
  {
    if c.aliases == [] {
      IndexCharAbsent("", ' ');
      SplitAfterChar(c.name, ' ', "");
      assert CommandLabel(c) == c.name + [' '] + "";
    } else {
      SplitJoinChar(c.aliases, ' ');
      SplitAfterChar(c.name, ' ', Join(c.aliases, " "));
    }
  }

  /** One row per command, in order: the label and the usage text. */
  function CommandRows(commands: seq<Command>): (rows: seq<Row>)
    ensures |rows| == |commands|
  {
    seq(|commands|, k requires 0 <= k < |commands| => Row(Plain(CommandLabel(commands[k])), Plain(commands[k].usage)))
  }

  /** The table of two lists is the first list's table over the second's,
      and a single command's row is its label beside its plain usage. */
  lemma CommandRowsAppend(a: seq<Command>, b: seq<Command>)
    ensures CommandRows(a + b) == CommandRows(a) + CommandRows(b)
    ensures |a| == 1 ==> CommandRows(a) == [Row(Plain(CommandLabel(a[0])), Plain(a[0].usage))]
  {
    var l, r := CommandRows(a + b), CommandRows(a) + CommandRows(b);
    forall k | 0 <= k < |l| ensures l[k] == r[k] {
      if k >= |a| {
        assert (a + b)[k] == b[k - |a|];
      }
    }
  }

  /** `urvafeCliGenerateCommandsTemplate`: a "Commands" section for a
      non-empty list. */
  function CommandsSection(commands: seq<Command>): (r: seq<Fragment>)
    ensures SectionTitles(r) == Opt(commands != [], "Commands")
    ensures commands == [] <==> r == []
  {
    if |commands| > 0 then TableSection("Commands", CommandRows(commands), "\n") else []
  }

  /** The loop that fills the commands table. */
  method CommandTableData(commands: seq<Command>) returns (data: seq<Row>)
    ensures data == CommandRows(commands)
  {
    data := [];
    var k := 0;
    while k < |commands|
      invariant 0 <= k <= |commands|
      invariant data == CommandRows(commands)[..k]
    {
      var command := commands[k];
      var row := Row(Plain(command.name + " " + Join(command.aliases, " ")), Plain(command.usage));
      assert CommandRows(commands)[..k + 1] == CommandRows(commands)[..k] + [row];
      data := data + [row];
      k := k + 1;
    }
    assert CommandRows(commands)[..|commands|] == CommandRows(commands);
  }

  /** `urvafeCliGenerateCommandsTemplate`. */
  method GenerateCommandsTemplate(commands: seq<Command>) returns (ret: seq<Fragment>)
    ensures ret == CommandsSection(commands)
  {
    ret := [];
    if |commands| > 0 {
      ret := ret + [Section("Commands")];
      var data := CommandTableData(commands);
      ret := ret + [Table(data)] + [Text("\n")];
    }
  }

  /** One row per author, in order: the name and the grey e-mail address. */
  function AuthorRows(authors: seq<Author>): (rows: seq<Row>)
    ensures |rows| == |authors|
  {
    seq(|authors|, k requires 0 <= k < |authors| => Row(Plain(authors[k].name), Tinted(Gray, authors[k].email)))
  }

  /** The table of two author lists is the first list's table over the
      second's, and a single author's row is the plain name beside the grey
      e-mail address. */
  lemma AuthorRowsAppend(a: seq<Author>, b: seq<Author>)
    ensures AuthorRows(a + b) == AuthorRows(a) + AuthorRows(b)
    ensures |a| == 1 ==> AuthorRows(a) == [Row(Plain(a[0].name), Tinted(Gray, a[0].email))]
  {
    var l, r := AuthorRows(a + b), AuthorRows(a) + AuthorRows(b);
    forall k | 0 <= k < |l| ensures l[k] == r[k] {
      if k >= |a| {
        assert (a + b)[k] == b[k - |a|];
      }
    }
  }

  /** `urvafeCliGenerateAuthorsTemplate`: an "Authors" section for a
      non-empty list. */
  function AuthorsSection(authors: seq<Author>): (r: seq<Fragment>)
    ensures SectionTitles(r) == Opt(authors != [], "Authors")
    ensures authors == [] <==> r == []
  {
    if |authors| > 0 then TableSection("Authors", AuthorRows(authors), "\n") else []
  }

  /** The loop that fills the authors table. */
  method AuthorTableData(authors: seq<Author>) returns (data: seq<Row>)
    ensures data == AuthorRows(authors)
  {
    data := [];
    var k := 0;
    while k < |authors|
      invariant 0 <= k <= |authors|
      invariant data == AuthorRows(authors)[..k]
    {
      var row := Row(Plain(authors[k].name), Tinted(Gray, authors[k].email));
      assert AuthorRows(authors)[..k + 1] == AuthorRows(authors)[..k] + [row];
      data := data + [row];
      k := k + 1;
    }
    assert AuthorRows(authors)[..|authors|] == AuthorRows(authors);
  }

  /** `urvafeCliGenerateAuthorsTemplate`. */
  method GenerateAuthorsTemplate(authors: seq<Author>) returns (ret: seq<Fragment>)
    ensures ret == AuthorsSection(authors)
  {
    ret := [];
    if |authors| > 0 {
      ret := ret + [Section("Authors")];
      var data := AuthorTableData(authors);
      ret := ret + [Table(data)] + [Text("\n")];
    }
  }

  // ---------------------------------------------------------------------
  // Usage and description
  // ---------------------------------------------------------------------

  /** What follows the main app's name on the default usage line. */
  const DefaultUsageTail: string := " [global options] command [options] [arguments...]\n"

  /** `urvafeCliGenerateUsageTemplate`: the usage header for a non-empty
      usage, then the usage text as given, or the default usage line of the
      main app when there is none. */
  function UsageTemplate(usage: string, usageText: string, mainName: string): (r: seq<Fragment>)
    ensures SectionTitles(r) == Opt(usage != "", "Usage")
    ensures r != [] && r[..|r| - 1] == UsageHeader(usage)
    ensures usageText != "" ==> r[|r| - 1] == Text(usageText)
    ensures usageText == "" ==> r[|r| - 1] == Text(mainName + DefaultUsageTail)
  {
    var line := if usageText != "" then Text(usageText) else Text(mainName + DefaultUsageTail);
    SectionTitlesAppend(UsageHeader(usage), [line]);
    var r := UsageHeader(usage) + [line];
    assert r[..|r| - 1] == UsageHeader(usage);
    r
  }

  // ---------------------------------------------------------------------
  // The three help pages and the dispatch
  // ---------------------------------------------------------------------

  /** `urfaveCliGenerateAppHelpTemplate`. */
  function AppHelp(app: App, mainApp: App): seq<Fragment>
    requires TabbedFlags(app.flags)
  {
    [Title(mainApp.helpName, mainApp.version)]
      + AuthorsSection(app.authors)
      + UsageTemplate(app.usage, app.usageText, mainApp.name)
      + DescriptionSection(app.description)
      + CommandsSection(app.commands)
      + FlagsSection(app.flags)
      + CopyrightString(app.copyright)
  }

  /** `urfaveCliGenerateCommandHelpTemplate`. */
  function CommandHelp(command: Command, mainApp: App): seq<Fragment>
    requires TabbedFlags(command.flags)
  {
    [Title(command.helpName, mainApp.version)]
      + UsageTemplate(command.usage, command.usageText, mainApp.name)
      + DescriptionSection(command.description)
      + FlagsSection(command.flags)
      + CopyrightString(mainApp.copyright)
  }

  /** `urfaveCliGenerateSubcommandHelpTemplate`. */
  function SubcommandHelp(cmd: App, mainApp: App): seq<Fragment>
    requires TabbedFlags(cmd.flags)
  {
    [Title(cmd.helpName, mainApp.version)]
      + UsageTemplate(cmd.usage, cmd.usageText, mainApp.name)
      + DescriptionSection(cmd.description)
      + AuthorsSection(cmd.authors)
      + CommandsSection(cmd.commands)
      + FlagsSection(cmd.flags)
      + CopyrightString(mainApp.copyright)
  }

  /** The headers of the app page: authors before usage. */
  function AppTitles(app: App): seq<string> {
    Opt(app.authors != [], "Authors") + Opt(app.usage != "", "Usage")
      + Opt(app.description != "", "Description") + Opt(app.commands != [], "Commands")
      + Opt(app.flags != [], "Flags")
  }

  /** The headers of the subcommand page: authors after usage and description. */
  function SubcommandTitles(cmd: App): seq<string> {
    Opt(cmd.usage != "", "Usage") + Opt(cmd.description != "", "Description")
      + Opt(cmd.authors != [], "Authors") + Opt(cmd.commands != [], "Commands")
      + Opt(cmd.flags != [], "Flags")
  }

  /** The headers of the command page: no authors and no commands. */
  function CommandTitles(command: Command): seq<string> {
    Opt(command.usage != "", "Usage") + Opt(command.description != "", "Description")
      + Opt(command.flags != [], "Flags")
  }

  /** The flags the help page of a payload renders have tabs. */
  predicate PrintableFlags(payload: Payload) {
    match payload
    case CommandPayload(c) => TabbedFlags(c.flags)
    case AppPayload(a) => TabbedFlags(a.flags)
    case OtherPayload => true
  }

  /** What `UrfaveCliHelpPrinterCustom(mainApp)` writes for a payload: command
      help for a command, app help for the main app itself, subcommand help
      for any other app, and nothing for anything else. `reflect.DeepEqual`
      is equality of the values. */
  function HelpPrinterCustom(mainApp: App, payload: Payload): (r: seq<Fragment>)
    requires PrintableFlags(payload)
    ensures payload.OtherPayload? <==> r == []
    ensures payload.CommandPayload? ==>
      r[0] == Title(payload.command.helpName, mainApp.version) && SectionTitles(r) == CommandTitles(payload.command)
    ensures payload.AppPayload? && payload.app == mainApp ==>
      r[0] == Title(mainApp.helpName, mainApp.version) && SectionTitles(r) == AppTitles(mainApp)
    ensures payload.AppPayload? && payload.app != mainApp ==>
      r[0] == Title(payload.app.helpName, mainApp.version) && SectionTitles(r) == SubcommandTitles(payload.app)
  {
    match payload
    case CommandPayload(c) =>
      CommandHelpSections(c, mainApp);
      CommandHelp(c, mainApp)
    case AppPayload(a) =>
      if a == mainApp then
        AppHelpSections(mainApp, mainApp);
        AppHelp(mainApp, mainApp)
      else
        SubcommandHelpSections(a, mainApp);
        SubcommandHelp(a, mainApp)
    case OtherPayload => []
  }

  /** App help: title, authors, usage, description, commands, flags, copyright. */
  lemma AppHelpSections(app: App, mainApp: App)
    requires TabbedFlags(app.flags)
    ensures SectionTitles(AppHelp(app, mainApp)) == AppTitles(app)
  {
    var a, u, d := AuthorsSection(app.authors), UsageTemplate(app.usage, app.usageText, mainApp.name), DescriptionSection(app.description);
    var c, f, y := CommandsSection(app.commands), FlagsSection(app.flags), CopyrightString(app.copyright);
    PageTitles(mainApp.helpName, mainApp.version, a, u, d, c, f, y);
  }

  /** Subcommand help: title, usage, description, authors, commands, flags, copyright. */
  lemma SubcommandHelpSections(cmd: App, mainApp: App)
    requires TabbedFlags(cmd.flags)
    ensures SectionTitles(SubcommandHelp(cmd, mainApp)) == SubcommandTitles(cmd)
  {
    var u, d, a := UsageTemplate(cmd.usage, cmd.usageText, mainApp.name), DescriptionSection(cmd.description), AuthorsSection(cmd.authors);
    var c, f, y := CommandsSection(cmd.commands), FlagsSection(cmd.flags), CopyrightString(mainApp.copyright);
    PageTitles(cmd.helpName, mainApp.version, u, d, a, c, f, y);
  }

  /** Command help: title, usage, description, flags, copyright; no authors
      and no commands. */
  lemma CommandHelpSections(command: Command, mainApp: App)
    requires TabbedFlags(command.flags)
    ensures SectionTitles(CommandHelp(command, mainApp)) == CommandTitles(command)
  {
    var t := [Title(command.helpName, mainApp.version)];
    var u, d := UsageTemplate(command.usage, command.usageText, mainApp.name), DescriptionSection(command.description);
    var f, y := FlagsSection(command.flags), CopyrightString(mainApp.copyright);
    TitleFirst(command.helpName, mainApp.version, u);
    SectionTitlesAppend(t + u + d + f, y);
    SectionTitlesAppend(t + u + d, f);
    SectionTitlesAppend(t + u, d);
    DropLastEmpty(SectionTitles(u) + SectionTitles(d) + SectionTitles(f), SectionTitles(y));
  }

  /** A page of a title, five sections and a closing part without headers
      has the five sections' headers, in order. */
  lemma PageTitles(name: string, version: string, a: seq<Fragment>, b: seq<Fragment>, c: seq<Fragment>,
                   d: seq<Fragment>, e: seq<Fragment>, y: seq<Fragment>)
    requires SectionTitles(y) == []
    ensures SectionTitles([Title(name, version)] + a + b + c + d + e + y)
         == SectionTitles(a) + SectionTitles(b) + SectionTitles(c) + SectionTitles(d) + SectionTitles(e)
  {
    TitleFirst(name, version, a);
    SectionTitlesAppend6([Title(name, version)] + a, b, c, d, e, y);
    DropLastEmpty(SectionTitles(a) + SectionTitles(b) + SectionTitles(c) + SectionTitles(d) + SectionTitles(e), SectionTitles(y));
  }

  lemma DropLastEmpty(front: seq<string>, last: seq<string>)
    requires last == []
    ensures front + last == front
  {
  }

  /** The main app's authors come before its usage; another app's come
      after its usage and description. */
  lemma AuthorsPlacement(app: App, mainApp: App)
    requires TabbedFlags(app.flags)
    requires app.authors != [] && app.usage != ""
    ensures var titles := SectionTitles(AppHelp(app, mainApp));
      |titles| >= 2 && titles[..2] == ["Authors", "Usage"]
    ensures var titles := SectionTitles(SubcommandHelp(app, mainApp));
      |titles| >= 1 && titles[0] == "Usage"
  {
    var u, d := Opt(app.usage != "", "Usage"), Opt(app.description != "", "Description");
    var a, c, f := Opt(app.authors != [], "Authors"), Opt(app.commands != [], "Commands"), Opt(app.flags != [], "Flags");
    AppHelpSections(app, mainApp);
    assert a + u == ["Authors", "Usage"];
    FrontOf3(a + u, d, c, f);
    SubcommandHelpSections(app, mainApp);
    FrontOf4(u, d, a, c, f);
  }

  /** A list of titles begins with its first part. */
  lemma FrontOf3(front: seq<string>, b: seq<string>, c: seq<string>, d: seq<string>)
    ensures |front + b + c + d| >= |front| && (front + b + c + d)[..|front|] == front
  {
  }

  lemma FrontOf4(front: seq<string>, b: seq<string>, c: seq<string>, d: seq<string>, e: seq<string>)
    ensures |front + b + c + d + e| >= |front| && (front + b + c + d + e)[..|front|] == front
  {
  }

  /** A command's help page has neither an authors nor a commands section. */
  lemma DispatchCommand(mainApp: App, command: Command)
    requires TabbedFlags(command.flags)
    ensures var titles := SectionTitles(HelpPrinterCustom(mainApp, CommandPayload(command)));
      "Authors" !in titles && "Commands" !in titles
  {
    var u, d := Opt(command.usage != "", "Usage"), Opt(command.description != "", "Description");
    var f := Opt(command.flags != [], "Flags");
    assert "Authors" !in u + d + f && "Commands" !in u + d + f;
  }

  /** The main app itself gets the app page: with authors and a usage text
      it opens with the authors and then the usage. */
  lemma DispatchMainApp(mainApp: App)
    requires TabbedFlags(mainApp.flags)
    requires mainApp.authors != [] && mainApp.usage != ""
    ensures var titles := SectionTitles(HelpPrinterCustom(mainApp, AppPayload(mainApp)));
      |titles| >= 2 && titles[..2] == ["Authors", "Usage"]
  {
    AuthorsPlacement(mainApp, mainApp);
  }

  /** Any other app gets the subcommand page: with authors and a usage text
      it opens with the usage, and the authors come later. */
  lemma DispatchOtherApp(mainApp: App, app: App)
    requires TabbedFlags(app.flags)
    requires app != mainApp && app.authors != [] && app.usage != ""
    ensures var titles := SectionTitles(HelpPrinterCustom(mainApp, AppPayload(app)));
      |titles| >= 2 && titles[0] == "Usage" && "Authors" in titles[1..]
  {
    var u, d := Opt(app.usage != "", "Usage"), Opt(app.description != "", "Description");
    var a, c, f := Opt(app.authors != [], "Authors"), Opt(app.commands != [], "Commands"), Opt(app.flags != [], "Flags");
    var titles := u + d + a + c + f;
    assert titles[1..] == d + a + c + f;
    assert "Authors" in a;
  }
}
