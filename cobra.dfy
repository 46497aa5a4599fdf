/** The spf13/cobra adapter: the help function and the flag-error function
    that replace cobra's own. Their commands and flags sections are the same
    code as the command-tree renderer's and are modelled by it
    (`Pcli.CommandsSection`, `Pcli.FlagsSection`). */
module Spf13Cobra {
  import opened GoStrings
  import opened Render
  import Pcli

  /** What the adapter reads from the root command it was created with. */
  datatype RootCommand = RootCommand(name: string, version: string, use: string)

  /** The output of the flag-error function and the error it returns. */
  datatype FlagErrorResult = FlagErrorResult(output: seq<Fragment>, err: Option<string>)

  /** What follows the root command's `Use` on the usage line, with the line break. */
  const UsageTail: string := " [global options] command [options] [arguments...]\n"

  /** `spf13CobraGenerateUsageTemplate`: the usage header for a non-empty
      short text, then a usage line built from the root command's `Use`. */
  function UsageTemplate(cmd: Pcli.Command, root: RootCommand): (r: seq<Fragment>)
    ensures SectionTitles(r) == Opt(cmd.short != "", "Usage")
    ensures r != [] && r[..|r| - 1] == UsageHeader(cmd.short)
    ensures r[|r| - 1] == Text(root.use + UsageTail)
  {
    var line := Text(root.use + UsageTail);
    SectionTitlesAppend(UsageHeader(cmd.short), [line]);
    var r := UsageHeader(cmd.short) + [line];
    assert r[..|r| - 1] == UsageHeader(cmd.short);
    r
  }

  /** The usage line does not depend on the command being helped: two
      commands with the same short text get the same usage section. */
  lemma UsageIgnoresSubcommand(a: Pcli.Command, b: Pcli.Command, root: RootCommand)
    requires a.short == b.short
    ensures UsageTemplate(a, root) == UsageTemplate(b, root)
  {
  }

  /** The renderers disagree on the usage line of a subcommand: the help
      function prints the root's `Use`, the Markdown walk the command's whole
      parent path, which starts with the root's name and ends with the
      command's own `Use`. */
  lemma UsageLineDrift(cmd: Pcli.Command, ancestors: seq<string>, root: RootCommand)
    requires ancestors != []
    ensures var cobra := UsageTemplate(cmd, root);
      cobra[|cobra| - 1] == Text(root.use + UsageTail)
    ensures var walk := Pcli.UsageSection(cmd, ancestors);
      |walk| >= 2 && walk[|walk| - 2] == Colored(LightMagenta, Pcli.ParentPath(ancestors, cmd.use))
    ensures HasPrefix(Pcli.ParentPath(ancestors, cmd.use), ancestors[0] + " ")
    ensures HasSuffix(Pcli.ParentPath(ancestors, cmd.use), cmd.use)
  {
    Pcli.ParentPathEnds(ancestors, cmd.use);
    var line := [Colored(LightMagenta, Pcli.ParentPath(ancestors, cmd.use)), Text("\n")];
    assert Pcli.UsageSection(cmd, ancestors) == UsageHeader(cmd.short) + line;
  }

  /** The sections both functions print: title, usage, description, commands, flags. */
  function HelpBody(root: RootCommand, cmd: Pcli.Command): seq<Fragment> {
    [Title(root.name, root.version)]
      + UsageTemplate(cmd, root)
      + DescriptionSection(cmd.long)
      + Pcli.CommandsSection(cmd.children)
      + Pcli.FlagsSection(cmd.flags)
  }

  /** The headers of the shared sections, in order, after the title. */
  lemma HelpBodySections(root: RootCommand, cmd: Pcli.Command)
    ensures HelpBody(root, cmd)[0] == Title(root.name, root.version)
    ensures SectionTitles(HelpBody(root, cmd)) == HelpTitles(cmd)
  {
    var t := [Title(root.name, root.version)];
    var u, d := UsageTemplate(cmd, root), DescriptionSection(cmd.long);
    var c, f := Pcli.CommandsSection(cmd.children), Pcli.FlagsSection(cmd.flags);
    TitleFirst(root.name, root.version, u);
    SectionTitlesAppend(t + u + d + c, f);
    SectionTitlesAppend(t + u + d, c);
    SectionTitlesAppend(t + u, d);
  }

  /** The headers the help body prints, in order. */
  function HelpTitles(cmd: Pcli.Command): seq<string> {
    Opt(cmd.short != "", "Usage") + Opt(cmd.long != "", "Description")
      + Opt(cmd.children != [], "Commands") + Opt(cmd.flags.hasFlags, "Flags")
  }

  /** What `Spf13CobraHelpFunc(rootCmd)` prints for a command: the root's
      title, then the usage, description, commands and flags sections, each
      exactly when it has content, and a closing line break. */
  function HelpOutput(root: RootCommand, cmd: Pcli.Command): (r: seq<Fragment>)
    ensures SectionTitles(r) == HelpTitles(cmd)
    ensures r != [] && r[0] == Title(root.name, root.version)
    ensures r[|r| - 1] == Text("\n")
  {
    var body := HelpBody(root, cmd);
    HelpBodySections(root, cmd);
    EndingsAddNoSections(body, "");
    EndingsKeepEnds(body, "");
    body + [Text("\n")]
  }

  /** What `Spf13CobraFlagErrorFunc(rootCmd)` prints for a command and an
      error message, and the error it returns: the same title and sections as
      the help output, then the red error line last, and always a nil error. */
  function FlagErrorOutput(root: RootCommand, cmd: Pcli.Command, message: string): (r: FlagErrorResult)
    ensures r.err == None
    ensures SectionTitles(r.output) == HelpTitles(cmd)
    ensures r.output != [] && r.output[0] == Title(root.name, root.version)
    ensures r.output[|r.output| - 1] == ErrorLine(message)
  {
    var body := HelpBody(root, cmd);
    HelpBodySections(root, cmd);
    EndingsAddNoSections(body, message);
    EndingsKeepEnds(body, message);
    FlagErrorResult(body + [Text("\n\n"), ErrorLine(message)], None)
  }

  /** Neither ending adds a section header. */
  lemma EndingsAddNoSections(body: seq<Fragment>, message: string)
    ensures SectionTitles(body + [Text("\n")]) == SectionTitles(body)
    ensures SectionTitles(body + [Text("\n\n"), ErrorLine(message)]) == SectionTitles(body)
  {
    SectionTitlesAppend(body, [Text("\n")]);
    SectionTitlesAppend(body, [Text("\n\n"), ErrorLine(message)]);
    TextHasNoSections([Text("\n")]);
    TextNoSections2(Text("\n\n"), ErrorLine(message));
  }

  /** Both endings keep the body's first fragment and put their own last. */
  lemma EndingsKeepEnds(body: seq<Fragment>, message: string)
    requires body != []
    ensures var help := body + [Text("\n")];
      help[0] == body[0] && help[|help| - 1] == Text("\n")
    ensures var out := body + [Text("\n\n"), ErrorLine(message)];
      out[0] == body[0] && out[|out| - 1] == ErrorLine(message)
  {
  }

  /** The flag-error output has the help output's sections in the same order,
      and only its ending differs. */
  lemma ErrorOutputMatchesHelp(root: RootCommand, cmd: Pcli.Command, message: string)
    ensures var help := HelpOutput(root, cmd);
      var out := FlagErrorOutput(root, cmd, message).output;
      help[..|help| - 1] == out[..|out| - 2]
    ensures SectionTitles(HelpOutput(root, cmd)) == SectionTitles(FlagErrorOutput(root, cmd, message).output)
  {
    var body := HelpBody(root, cmd);
    var help := HelpOutput(root, cmd);
    var out := FlagErrorOutput(root, cmd, message).output;
    assert help == help[..|help| - 1] + [help[|help| - 1]];
    assert help == body + [Text("\n")];
    assert out == out[..|out| - 2] + out[|out| - 2..];
    assert out == body + [Text("\n\n"), ErrorLine(message)];
    EndingsAddNoSections(body, message);
  }
}
