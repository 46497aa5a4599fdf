/** The command-tree renderer of the library: repository settings, the parent
    path of a command, the commands and flags sections of a help page, and the
    recursive Markdown documentation walk. cobra's own bookkeeping
    (`CommandPath`, `Name`, `HasFlags`, `FlagUsages`) is taken as input data. */
module Pcli {
  import opened GoStrings
  import opened Render
  import opened FlagTable

  /** A cobra command as the renderer sees it. `name` is cobra's `Name()`,
      `path` its `CommandPath()`; `children` are `Commands()` in order. */
  datatype Command = Command(
    use: string,
    name: string,
    path: string,
    short: string,
    long: string,
    example: string,
    aliases: seq<string>,
    hidden: bool,
    flags: FlagSet,
    children: seq<Command>)

  /** The parts of the package-level root command that the walk reads. */
  datatype Root = Root(path: string, use: string)

  // ---------------------------------------------------------------------
  // Repository settings: `AppInfo`, `SetRepo`, `getRepoPath`
  // ---------------------------------------------------------------------

  const RepoError: string := "repo must be set in this pattern: username/reponame, eg.: pterm/cli-template"

  /** A repository string `SetRepo` accepts: exactly two pieces around "/". */
  predicate ValidRepo(repo: string) {
    |Split(repo, "/")| == 2
  }

  /** The package-level `AppInfo` record. */
  class Meta {
    var username: string
    var reponame: string

    constructor ()
      ensures username == "" && reponame == ""
    {
      username := "";
      reponame := "";
    }

    /** `getRepoPath`. */
    function RepoPath(): string
      reads this
    {
      username + "/" + reponame
    }

    /** `SetRepo`: split at "/" and keep the two pieces, or report the error
        and leave the record as it was. */
    method SetRepo(repo: string) returns (err: Option<string>)
      modifies this
      ensures err.None? <==> ValidRepo(repo)
      ensures err.Some? ==> err.value == RepoError
      ensures err.None? ==> username == Split(repo, "/")[0] && reponame == Split(repo, "/")[1]
      ensures err.None? ==> RepoPath() == repo
      ensures err.Some? ==> username == old(username) && reponame == old(reponame)
    {
      var parts := Split(repo, "/");
      if |parts| != 2 {
        return Some(RepoError);
      }
      username := parts[0];
      reponame := parts[1];
      RepoRoundTrip(repo);
      return None;
    }
  }

  /** `SetRepo` accepts a string exactly when it holds a single "/". */
  lemma RepoAcceptsOneSlash(repo: string)
    ensures ValidRepo(repo) <==> multiset(repo)['/'] == 1
  {
    SplitCharCount(repo, '/');
  }

  /** The two accepted pieces joined back with "/" are the input again, so a
      successful `SetRepo` makes `getRepoPath` return its argument. */
  lemma RepoRoundTrip(repo: string)
    requires ValidRepo(repo)
    ensures Split(repo, "/")[0] + "/" + Split(repo, "/")[1] == repo
  {
    var parts := Split(repo, "/");
    JoinSplit(repo, "/");
    assert parts[1..] == [parts[1]];
  }

  /** A user and a repository name without "/" are accepted and read back
      as they were given. */
  lemma RepoFromParts(user: string, name: string)
    requires '/' !in user && '/' !in name
    ensures ValidRepo(user + "/" + name)
    ensures Split(user + "/" + name, "/") == [user, name]
  {
    assert Join([user, name], "/") == user + "/" + name;
    SplitJoinChar([user, name], '/');
  }

  // ---------------------------------------------------------------------
  // `getParentString`
  // ---------------------------------------------------------------------

  /** The names of the ancestors, root first, each followed by a space, then `use`. */
  function ParentPath(ancestors: seq<string>, use: string): string
    decreases |ancestors|
  {
    if ancestors == [] then use else ancestors[0] + " " + ParentPath(ancestors[1..], use)
  }

  /** The parent path is the ancestors' names and `use` joined with single spaces. */
  lemma {:induction false} ParentPathIsJoin(ancestors: seq<string>, use: string)
    ensures ParentPath(ancestors, use) == Join(ancestors + [use], " ")
    decreases |ancestors|
  {
    if ancestors != [] {
      ParentPathIsJoin(ancestors[1..], use);
      assert (ancestors + [use])[1..] == ancestors[1..] + [use];
    }
  }

  /** The parent path ends with `use` and starts with the root's name. */
  lemma {:induction false} ParentPathEnds(ancestors: seq<string>, use: string)
    ensures HasSuffix(ParentPath(ancestors, use), use)
    ensures ancestors != [] ==> HasPrefix(ParentPath(ancestors, use), ancestors[0] + " ")
    decreases |ancestors|
  {
    if ancestors != [] {
      ParentPathEnds(ancestors[1..], use);
      var rest := ParentPath(ancestors[1..], use);
      assert ParentPath(ancestors, use) == (ancestors[0] + " ") + rest;
    }
  }

  /** `getParentString`: start from `use` and walk up the parent chain,
      putting each parent's name and a space in front. `ancestors` lists the
      parents from the root down. */
  method GetParentString(use: string, ancestors: seq<string>) returns (ret: string)
    ensures ret == ParentPath(ancestors, use)
  {
    ret := use;
    var i := |ancestors|;
    while i > 0
      invariant 0 <= i <= |ancestors|
      invariant ret == ParentPath(ancestors[i..], use)
    {
      i := i - 1;
      assert ancestors[i..][1..] == ancestors[i + 1..];
      ret := ancestors[i] + " " + ret;
    }
  }

  // ---------------------------------------------------------------------
  // Hidden commands and the commands table
  // ---------------------------------------------------------------------

  /** The commands of `cs` that are not hidden, in order. */
  function Visible(cs: seq<Command>): (vs: seq<Command>)
    decreases |cs|
  {
    if cs == [] then []
    else Visible(cs[..|cs| - 1]) + (if cs[|cs| - 1].hidden then [] else [cs[|cs| - 1]])
  }

  /** Exactly the commands that are not hidden are listed, and no more than there were. */
  lemma {:induction false} VisibleMembers(cs: seq<Command>)
    ensures |Visible(cs)| <= |cs|
    ensures forall c :: c in Visible(cs) <==> c in cs && !c.hidden
    decreases |cs|
  {
    if cs != [] {
      var init := cs[..|cs| - 1];
      VisibleMembers(init);
      assert cs == init + [cs[|cs| - 1]];
    }
  }

  /** Hiding keeps the order: the visible commands of a concatenation are those
      of its parts, one after the other. */
  lemma {:induction false} VisibleAppend(a: seq<Command>, b: seq<Command>)
    ensures Visible(a + b) == Visible(a) + Visible(b)
    decreases |b|
  {
    if b == [] {
      assert a + b == a;
    } else {
      var init := b[..|b| - 1];
      assert (a + b)[..|a + b| - 1] == a + init;
      assert (a + b)[|a + b| - 1] == b[|b| - 1];
      VisibleAppend(a, init);
    }
  }

  /** With no command hidden, every command is listed. */
  lemma {:induction false} VisibleAll(cs: seq<Command>)
    requires forall k :: 0 <= k < |cs| ==> !cs[k].hidden
    ensures Visible(cs) == cs
    decreases |cs|
  {
    if cs != [] {
      VisibleAll(cs[..|cs| - 1]);
      assert cs == cs[..|cs| - 1] + [cs[|cs| - 1]];
    }
  }

  /** The label of a command in a commands table: `Use`, a space, the aliases. */
  function CommandLabel(c: Command): string {
    c.use + " " + Join(c.aliases, " ")
  }

  /** A command without aliases is labelled with its `Use` and a trailing space. */
  lemma LabelWithoutAliases(c: Command)
    requires c.aliases == []
    ensures CommandLabel(c) == c.use + " "
  {
  }

  /** The rows of a commands table: one per visible command, label and short text. */
  function CommandRows(cs: seq<Command>): seq<Row> {
    var vs := Visible(cs);
    seq(|vs|, k requires 0 <= k < |vs| => Row(Plain(CommandLabel(vs[k])), Plain(vs[k].short)))
  }

  /** `generateCommandsTemplate`: the "Commands" section is printed whenever
      the list is non-empty, and its table lists the visible commands. */
  function CommandsSection(cs: seq<Command>): (r: seq<Fragment>)
    ensures SectionTitles(r) == Opt(cs != [], "Commands")
    ensures cs == [] <==> r == []
  {
    if |cs| > 0 then TableSection("Commands", CommandRows(cs), "\n") else []
  }

  /** With every command hidden, nothing is listed. */
  lemma {:induction false} VisibleNone(cs: seq<Command>)
    requires forall k :: 0 <= k < |cs| ==> cs[k].hidden
    ensures Visible(cs) == []
    decreases |cs|
  {
    if cs != [] {
      VisibleNone(cs[..|cs| - 1]);
    }
  }

  /** A list made only of hidden commands still gets the header, over an empty table. */
  lemma AllHiddenKeepsHeader(cs: seq<Command>)
    requires cs != []
    requires forall k :: 0 <= k < |cs| ==> cs[k].hidden
    ensures CommandsSection(cs) == [Section("Commands"), Table([]), Text("\n")]
  {
    VisibleNone(cs);
    assert CommandRows(cs) == [];
  }

  /** The loop that fills the commands table. */
  method CommandTableData(cs: seq<Command>) returns (data: seq<Row>)
    ensures data == CommandRows(cs)
  {
    data := [];
    var k := 0;
    while k < |cs|
      invariant 0 <= k <= |cs|
      invariant data == CommandRows(cs[..k])
    {
      var command := cs[k];
      assert cs[..k + 1] == cs[..k] + [command];
      assert cs[..k + 1][..k] == cs[..k];
      if !command.hidden {
        data := data + [Row(Plain(command.use + " " + Join(command.aliases, " ")), Plain(command.short))];
      }
      k := k + 1;
    }
    assert cs[..|cs|] == cs;
  }

  /** `generateCommandsTemplate`. */
  method GenerateCommandsTemplate(cs: seq<Command>) returns (ret: seq<Fragment>)
    ensures ret == CommandsSection(cs)
  {
    ret := [];
    if |cs| > 0 {
      ret := ret + [Section("Commands")];
      var data := CommandTableData(cs);
      ret := ret + [Table(data)] + [Text("\n")];
    }
  }

  // ---------------------------------------------------------------------
  // The flags section
  // ---------------------------------------------------------------------

  /** `generateFlagsTemplate`: nothing for a flag set without flags, otherwise
      the "Flags" header and the table of its usage lines. */
  function FlagsSection(flags: FlagSet): (r: seq<Fragment>)
    ensures SectionTitles(r) == Opt(flags.hasFlags, "Flags")
    ensures !flags.hasFlags <==> r == []
  {
    if !flags.hasFlags then []
    else
      var r := [Section("Flags"), Table(FlagRows(flags.usages))];
      assert r == [r[0]] + [r[1]];
      SectionTitlesAppend([r[0]], [r[1]]);
      r
  }

  /** `generateFlagsTemplate`. */
  method GenerateFlagsTemplate(flags: FlagSet) returns (ret: seq<Fragment>)
    ensures ret == FlagsSection(flags)
  {
    if !flags.hasFlags {
      return [];
    }
    ret := [Section("Flags")];
    var flagTableData := BuildFlagRows(flags.usages);
    ret := ret + [Table(flagTableData)];
  }

  // ---------------------------------------------------------------------
  // The Markdown documentation walk
  // ---------------------------------------------------------------------

  /** `generateUsageTemplate`: the usage header and the command's parent path. */
  function UsageSection(cmd: Command, ancestors: seq<string>): (r: seq<Fragment>)
    ensures SectionTitles(r) == Opt(cmd.short != "", "Usage")
  {
    var line := [Colored(LightMagenta, ParentPath(ancestors, cmd.use)), Text("\n")];
    SectionTitlesAppend(UsageHeader(cmd.short), line);
    TextNoSections2(line[0], line[1]);
    UsageHeader(cmd.short) + line
  }

  // The fixed Markdown text of the walk.
  const SubHeading: string := "# ... "
  const DescriptionOpen: string := "\n## Description\n\n```\n"
  const ExamplesOpen: string := "## Examples\n\n```bash\n"
  const FenceClose: string := "\n```\n"
  const FlagsHead: string := "|Flag|Usage|\n"
  const FlagsRule: string := "|----|-----|\n"
  const CommandsHead: string := "|Command|Usage|\n"
  const CommandsRule: string := "|-------|-----|\n"
  const FooterRule: string := "\n\n---\n"
  const FooterOpen: string := "> **Documentation automatically generated with [PTerm](https://github.com/pterm/cli-template) on "
  const FooterClose: string := "**\n"

  /** The Markdown heading: a sub-command is shown relative to the root's `Use`
      and then with its full path in backticks, the root with its path alone. */
  function Heading(root: Root, cmd: Command): (r: seq<Fragment>)
    ensures SectionTitles(r) == []
  {
    if cmd.path != root.path then
      var r := [Text(SubHeading + TrimSpace(TrimPrefix(cmd.path, root.use)) + "\n"), Text("`" + cmd.path + "`\n")];
      TextNoSections2(r[0], r[1]);
      r
    else
      [Text("# " + cmd.path + "\n")]
  }

  /** The long description as a fenced block. */
  function LongBlock(long: string): (r: seq<Fragment>)
    ensures SectionTitles(r) == []
  {
    if long != "" then [Text(DescriptionOpen + long + FenceClose)] else []
  }

  /** The examples as a fenced bash block. */
  function ExampleBlock(example: string): (r: seq<Fragment>)
    ensures SectionTitles(r) == []
  {
    if example != "" then [Text(ExamplesOpen + example + FenceClose)] else []
  }

  /** A Markdown table line: the left cell in backticks, then the right cell. */
  function MarkdownLine(row: Row): Fragment {
    Text("|`" + row.left.text + "`|" + row.right.text + "|\n")
  }

  /** One Markdown table line per row, in order. */
  function MarkdownLines(rows: seq<Row>): seq<Fragment> {
    seq(|rows|, k requires 0 <= k < |rows| => MarkdownLine(rows[k]))
  }

  /** A Markdown table: its header, the column names, the rule and one line per row. */
  function MarkdownTable(title: string, head: string, rule: string, rows: seq<Row>): (r: seq<Fragment>)
    ensures SectionTitles(r) == [title]
    ensures |r| == |rows| + 3
  {
    var lines := MarkdownLines(rows);
    var r := [Section(title), Text(head), Text(rule)] + lines;
    var body := [Text(head), Text(rule)] + lines;
    forall k | 0 <= k < |body|
      ensures body[k].Text?
    {
      if k >= 2 {
        assert body[k] == lines[k - 2];
      }
    }
    TextHasNoSections(body);
    SectionTitlesAppend([Section(title)], [Text(head), Text(rule)] + lines);
    assert r == [Section(title)] + ([Text(head), Text(rule)] + lines);
    r
  }

  /** The Markdown flags table, present only when the command has flags. */
  function MarkdownFlags(flags: FlagSet): (r: seq<Fragment>)
    ensures SectionTitles(r) == Opt(flags.hasFlags, "Flags")
  {
    if flags.hasFlags then MarkdownTable("Flags", FlagsHead, FlagsRule, FlagRows(flags.usages)) else []
  }

  /** The rows of the Markdown commands table: path and short text of every
      visible child. */
  function PathRows(cs: seq<Command>): seq<Row> {
    var vs := Visible(cs);
    seq(|vs|, k requires 0 <= k < |vs| => Row(Plain(vs[k].path), Plain(vs[k].short)))
  }

  /** The paths cobra's `CommandPath()` gives throughout a tree: a child's
      path is its parent's path, a space and the child's name. */
  predicate PathsFollowNames(cmd: Command)
    decreases cmd
  {
    forall k :: 0 <= k < |cmd.children| ==>
      cmd.children[k].path == cmd.path + " " + cmd.children[k].name && PathsFollowNames(cmd.children[k])
  }

  /** In a tree cobra builds, each row of a command's Markdown commands table
      holds the command's own path, a space and the visible child's name. */
  lemma PathRowsExtendParent(cmd: Command)
    requires PathsFollowNames(cmd)
    ensures var rows, vs := PathRows(cmd.children), Visible(cmd.children);
      |rows| == |vs| && forall k :: 0 <= k < |rows| ==> rows[k].left.text == cmd.path + " " + vs[k].name
  {
    var vs := Visible(cmd.children);
    VisibleMembers(cmd.children);
    forall k | 0 <= k < |vs|
      ensures vs[k].path == cmd.path + " " + vs[k].name
    {
      assert vs[k] in cmd.children;
      var j :| 0 <= j < |cmd.children| && cmd.children[j] == vs[k];
    }
  }

  /** The Markdown commands table, present whenever there are children. */
  function MarkdownCommands(cs: seq<Command>): (r: seq<Fragment>)
    ensures SectionTitles(r) == Opt(cs != [], "Commands")
  {
    if |cs| > 0 then MarkdownTable("Commands", CommandsHead, CommandsRule, PathRows(cs)) else []
  }

  /** All that one visible command contributes before its children. */
  function NodeBlock(root: Root, cmd: Command, ancestors: seq<string>): seq<Fragment> {
    Heading(root, cmd) + UsageSection(cmd, ancestors) + LongBlock(cmd.long) + ExampleBlock(cmd.example)
      + MarkdownFlags(cmd.flags) + MarkdownCommands(cmd.children)
  }

  /** A block's headers: "Usage" for a short text, "Flags" for a flag set
      with flags, "Commands" for any children; the heading, the description
      and the examples are plain Markdown text. */
  lemma NodeBlockSections(root: Root, cmd: Command, ancestors: seq<string>)
    ensures SectionTitles(NodeBlock(root, cmd, ancestors))
         == Opt(cmd.short != "", "Usage") + Opt(cmd.flags.hasFlags, "Flags") + Opt(cmd.children != [], "Commands")
  {
    var h, u, l := Heading(root, cmd), UsageSection(cmd, ancestors), LongBlock(cmd.long);
    var e, f, c := ExampleBlock(cmd.example), MarkdownFlags(cmd.flags), MarkdownCommands(cmd.children);
    assert NodeBlock(root, cmd, ancestors) == h + u + l + e + f + c;
    SectionTitlesAppend6(h, u, l, e, f, c);
    assert SectionTitles(h) == [] && SectionTitles(l) == [] && SectionTitles(e) == [];
    DropEmptyTitles(SectionTitles(h), SectionTitles(u), SectionTitles(l), SectionTitles(e), SectionTitles(f), SectionTitles(c));
  }

  lemma DropEmptyTitles(h: seq<string>, u: seq<string>, l: seq<string>, e: seq<string>, f: seq<string>, c: seq<string>)
    requires h == [] && l == [] && e == []
    ensures h + u + l + e + f + c == u + f + c
  {
  }

  /** Renders one command; the walk takes it as a parameter so that the facts
      about the walk's shape do not depend on what a block contains. */
  type BlockFn = (Command, seq<string>) -> seq<Fragment>

  /** The walk of `generateMarkdownTree`: nothing for a hidden command;
      otherwise its own block followed by the walks of its children, in
      order, each child seeing one more ancestor name. */
  function Walk(cmd: Command, ancestors: seq<string>, block: BlockFn): seq<Fragment>
    decreases cmd, 1, 0
  {
    if cmd.hidden then []
    else block(cmd, ancestors) + WalkChildren(cmd, |cmd.children|, ancestors + [cmd.name], block)
  }

  /** The walks of the first `n` children of `parent`, concatenated. */
  function WalkChildren(parent: Command, n: nat, ancestors: seq<string>, block: BlockFn): seq<Fragment>
    requires n <= |parent.children|
    decreases parent, 0, n
  {
    if n == 0 then []
    else WalkChildren(parent, n - 1, ancestors, block) + Walk(parent.children[n - 1], ancestors, block)
  }

  /** The block function of the Markdown documentation. */
  function MarkdownBlock(root: Root): BlockFn {
    (cmd: Command, ancestors: seq<string>) => NodeBlock(root, cmd, ancestors)
  }

  /** `generateMarkdownTree`. */
  function MarkdownTree(root: Root, cmd: Command, ancestors: seq<string>): seq<Fragment> {
    Walk(cmd, ancestors, MarkdownBlock(root))
  }

  /** A command in the walk, with the names of its ancestors from the root down. */
  datatype Node = Node(cmd: Command, ancestors: seq<string>)

  /** The commands the walk visits, in pre-order, skipping hidden subtrees. */
  function VisiblePreorder(cmd: Command, ancestors: seq<string>): seq<Node>
    decreases cmd, 1, 0
  {
    if cmd.hidden then []
    else [Node(cmd, ancestors)] + VisibleChildren(cmd, |cmd.children|, ancestors + [cmd.name])
  }

  function VisibleChildren(parent: Command, n: nat, ancestors: seq<string>): seq<Node>
    requires n <= |parent.children|
    decreases parent, 0, n
  {
    if n == 0 then []
    else VisibleChildren(parent, n - 1, ancestors) + VisiblePreorder(parent.children[n - 1], ancestors)
  }

  /** Every command in the tree, in pre-order. */
  function Preorder(cmd: Command, ancestors: seq<string>): seq<Node>
    decreases cmd, 1, 0
  {
    [Node(cmd, ancestors)] + AllChildren(cmd, |cmd.children|, ancestors + [cmd.name])
  }

  function AllChildren(parent: Command, n: nat, ancestors: seq<string>): seq<Node>
    requires n <= |parent.children|
    decreases parent, 0, n
  {
    if n == 0 then []
    else AllChildren(parent, n - 1, ancestors) + Preorder(parent.children[n - 1], ancestors)
  }

  /** The blocks of a list of nodes, concatenated. */
  function Blocks(nodes: seq<Node>, block: BlockFn): seq<Fragment> {
    ConcatMap(nodes, (node: Node) => block(node.cmd, node.ancestors))
  }

  lemma BlocksAppend(a: seq<Node>, b: seq<Node>, block: BlockFn)
    ensures Blocks(a + b, block) == Blocks(a, block) + Blocks(b, block)
  {
    ConcatMapAppend(a, b, (node: Node) => block(node.cmd, node.ancestors));
  }

  /** The walk is the blocks of the visible commands, in pre-order: a hidden
      command contributes nothing, and neither does anything below it. */
  lemma {:induction false} WalkIsPreorder(cmd: Command, ancestors: seq<string>, block: BlockFn)
    ensures Walk(cmd, ancestors, block) == Blocks(VisiblePreorder(cmd, ancestors), block)
    decreases cmd, 1, 0
  {
    if !cmd.hidden {
      var anc := ancestors + [cmd.name];
      var n := |cmd.children|;
      WalkChildrenArePreorder(cmd, n, anc, block);
      var node := Node(cmd, ancestors);
      BlocksAppend([node], VisibleChildren(cmd, n, anc), block);
      ConcatMapSingle(node, (node: Node) => block(node.cmd, node.ancestors));
    }
  }

  lemma {:induction false} WalkChildrenArePreorder(parent: Command, n: nat, ancestors: seq<string>, block: BlockFn)
    requires n <= |parent.children|
    ensures WalkChildren(parent, n, ancestors, block) == Blocks(VisibleChildren(parent, n, ancestors), block)
    decreases parent, 0, n
  {
    if n > 0 {
      WalkChildrenArePreorder(parent, n - 1, ancestors, block);
      WalkIsPreorder(parent.children[n - 1], ancestors, block);
      BlocksAppend(VisibleChildren(parent, n - 1, ancestors), VisiblePreorder(parent.children[n - 1], ancestors), block);
    }
  }

  /** The Markdown document is the blocks of the visible commands, in pre-order. */
  lemma MarkdownTreeIsPreorder(root: Root, cmd: Command, ancestors: seq<string>)
    ensures MarkdownTree(root, cmd, ancestors) == Blocks(VisiblePreorder(cmd, ancestors), MarkdownBlock(root))
  {
    WalkIsPreorder(cmd, ancestors, MarkdownBlock(root));
  }

  /** No hidden command is visited. */
  lemma {:induction false} PreorderSkipsHidden(cmd: Command, ancestors: seq<string>)
    ensures forall k :: 0 <= k < |VisiblePreorder(cmd, ancestors)| ==> !VisiblePreorder(cmd, ancestors)[k].cmd.hidden
    decreases cmd, 1, 0
  {
    if !cmd.hidden {
      ChildrenSkipHidden(cmd, |cmd.children|, ancestors + [cmd.name]);
    }
  }

  lemma {:induction false} ChildrenSkipHidden(parent: Command, n: nat, ancestors: seq<string>)
    requires n <= |parent.children|
    ensures forall k :: 0 <= k < |VisibleChildren(parent, n, ancestors)| ==> !VisibleChildren(parent, n, ancestors)[k].cmd.hidden
    decreases parent, 0, n
  {
    if n > 0 {
      ChildrenSkipHidden(parent, n - 1, ancestors);
      PreorderSkipsHidden(parent.children[n - 1], ancestors);
    }
  }

  /** No command anywhere in the tree is hidden. */
  predicate AllVisible(cmd: Command)
    decreases cmd
  {
    !cmd.hidden && forall k :: 0 <= k < |cmd.children| ==> AllVisible(cmd.children[k])
  }

  /** In a tree without hidden commands the walk documents every command. */
  lemma {:induction false} AllVisibleIsPreorder(cmd: Command, ancestors: seq<string>)
    requires AllVisible(cmd)
    ensures VisiblePreorder(cmd, ancestors) == Preorder(cmd, ancestors)
    decreases cmd, 1, 0
  {
    AllVisibleChildren(cmd, |cmd.children|, ancestors + [cmd.name]);
  }

  lemma {:induction false} AllVisibleChildren(parent: Command, n: nat, ancestors: seq<string>)
    requires n <= |parent.children|
    requires forall k :: 0 <= k < n ==> AllVisible(parent.children[k])
    ensures VisibleChildren(parent, n, ancestors) == AllChildren(parent, n, ancestors)
    decreases parent, 0, n
  {
    if n > 0 {
      AllVisibleChildren(parent, n - 1, ancestors);
      AllVisibleIsPreorder(parent.children[n - 1], ancestors);
    }
  }

  /** The date footer of `generateMarkdown`; the date is an input. */
  function Footer(date: string): seq<Fragment> {
    [Text(FooterRule), Text(FooterOpen + date + FooterClose)]
  }

  /** `GenerateMarkdownDoc`'s file name: the command path with spaces as underscores. */
  function DocFilename(path: string): (f: string)
    ensures |f| == |path|
    ensures forall i :: 0 <= i < |path| ==> f[i] == if path[i] == ' ' then '_' else path[i]
    ensures ' ' !in f
  {
    ReplaceAllChar(path, ' ', '_');
    ReplaceAll(path, " ", "_")
  }

  /** `MarkdownDocument`; a missing command is Go's nil. */
  datatype MarkdownDocument = MarkdownDocument(
    name: string,
    markdown: seq<Fragment>,
    command: Option<Command>,
    filename: string)

  /** The loop that writes one Markdown line per table row. */
  method MarkdownTableLines(rows: seq<Row>) returns (lines: seq<Fragment>)
    ensures lines == MarkdownLines(rows)
  {
    lines := [];
    var k := 0;
    while k < |rows|
      invariant 0 <= k <= |rows|
      invariant lines == MarkdownLines(rows[..k])
    {
      var d := rows[k];
      lines := lines + [Text("|`" + d.left.text + "`|" + d.right.text + "|\n")];
      k := k + 1;
    }
    assert rows[..|rows|] == rows;
  }

  /** The loop of the Markdown commands table: path and short text of every
      visible child. */
  method PathTableData(cs: seq<Command>) returns (data: seq<Row>)
    ensures data == PathRows(cs)
  {
    data := [];
    var k := 0;
    while k < |cs|
      invariant 0 <= k <= |cs|
      invariant data == PathRows(cs[..k])
    {
      var command := cs[k];
      assert cs[..k + 1] == cs[..k] + [command];
      assert cs[..k + 1][..k] == cs[..k];
      if !command.hidden {
        data := data + [Row(Plain(command.path), Plain(command.short))];
      }
      k := k + 1;
    }
    assert cs[..|cs|] == cs;
  }

  /** The flags part of `generateMarkdownTree`: the split loop, then one
      Markdown line per row. */
  method WriteMarkdownFlags(flags: FlagSet) returns (md: seq<Fragment>)
    ensures md == MarkdownFlags(flags)
  {
    md := [];
    if flags.hasFlags {
      md := md + [Section("Flags")];
      var flagTableData := BuildFlagRows(flags.usages);
      md := md + [Text(FlagsHead), Text(FlagsRule)];
      var lines := MarkdownTableLines(flagTableData);
      md := md + lines;
    }
  }

  /** The commands part of `generateMarkdownTree`. */
  method WriteMarkdownCommands(cs: seq<Command>) returns (md: seq<Fragment>)
    ensures md == MarkdownCommands(cs)
  {
    md := [];
    if |cs| > 0 {
      md := md + [Section("Commands")];
      var data := PathTableData(cs);
      md := md + [Text(CommandsHead), Text(CommandsRule)];
      var lines := MarkdownTableLines(data);
      md := md + lines;
    }
  }

  /** Everything `generateMarkdownTree` writes for a visible command before
      it turns to the children. */
  method WriteNodeBlock(root: Root, cmd: Command, ancestors: seq<string>) returns (md: seq<Fragment>)
    ensures md == NodeBlock(root, cmd, ancestors)
  {
    md := Heading(root, cmd);
    var parent := GetParentString(cmd.use, ancestors);
    md := md + (UsageHeader(cmd.short) + [Colored(LightMagenta, parent), Text("\n")]);
    md := md + LongBlock(cmd.long) + ExampleBlock(cmd.example);
    var flags := WriteMarkdownFlags(cmd.flags);
    md := md + flags;
    var commands := WriteMarkdownCommands(cmd.children);
    md := md + commands;
  }

  /** The process-wide colour switch of the styling library. */
  class Terminal {
    var colorEnabled: bool

    constructor ()
      ensures colorEnabled
    {
      colorEnabled := true;
    }

    /** `generateMarkdownTree`. Colour is switched off for a visible command
        and switched on at its end, whatever it was before. */
    method GenerateMarkdownTree(root: Root, cmd: Command, ancestors: seq<string>) returns (md: seq<Fragment>)
      modifies this
      ensures md == MarkdownTree(root, cmd, ancestors)
      ensures colorEnabled == if cmd.hidden then old(colorEnabled) else true
      decreases cmd, 1
    {
      if cmd.hidden {
        return [];
      }
      colorEnabled := false;
      md := WriteNodeBlock(root, cmd, ancestors);
      var children := GenerateChildTrees(root, cmd, ancestors + [cmd.name]);
      md := md + children;
      colorEnabled := true;
      assert MarkdownBlock(root)(cmd, ancestors) == NodeBlock(root, cmd, ancestors);
    }

    /** The loop of `generateMarkdownTree` over the children. The colour
        switch is left however the last visible child left it. */
    method GenerateChildTrees(root: Root, parent: Command, ancestors: seq<string>) returns (md: seq<Fragment>)
      modifies this
      ensures md == WalkChildren(parent, |parent.children|, ancestors, MarkdownBlock(root))
      decreases parent, 0
    {
      md := [];
      var i := 0;
      while i < |parent.children|
        invariant 0 <= i <= |parent.children|
        invariant md == WalkChildren(parent, i, ancestors, MarkdownBlock(root))
      {
        var c := parent.children[i];
        var sub := GenerateMarkdownTree(root, c, ancestors);
        assert WalkChildren(parent, i + 1, ancestors, MarkdownBlock(root))
            == WalkChildren(parent, i, ancestors, MarkdownBlock(root)) + Walk(c, ancestors, MarkdownBlock(root));
        md := md + sub;
        i := i + 1;
      }
    }

    /** `generateMarkdown`: the tree and the dated footer. */
    method GenerateMarkdown(root: Root, cmd: Command, ancestors: seq<string>, date: string) returns (md: seq<Fragment>)
      modifies this
      ensures md == MarkdownTree(root, cmd, ancestors) + Footer(date)
      ensures colorEnabled == if cmd.hidden then old(colorEnabled) else true
    {
      md := GenerateMarkdownTree(root, cmd, ancestors);
      md := md + Footer(date);
    }

    /** `GenerateMarkdownDoc`: the document of a visible command, the zero
        document for a hidden one. */
    method GenerateMarkdownDoc(root: Root, cmd: Command, ancestors: seq<string>, date: string) returns (doc: MarkdownDocument)
      modifies this
      ensures cmd.hidden ==> doc == MarkdownDocument("", [], None, "") && colorEnabled == old(colorEnabled)
      ensures !cmd.hidden ==> doc.name == cmd.path && doc.command == Some(cmd) && doc.filename == DocFilename(cmd.path)
      ensures !cmd.hidden ==> doc.markdown == MarkdownTree(root, cmd, ancestors) + Footer(date) && colorEnabled
    {
      if !cmd.hidden {
        var markdown := GenerateMarkdown(root, cmd, ancestors, date);
        return MarkdownDocument(cmd.path, markdown, Some(cmd), ReplaceAll(cmd.path, " ", "_"));
      }
      return MarkdownDocument("", [], None, "");
    }
  }
}
