# pcli help and documentation renderer, modelled in Dafny

pcli is a Go library that restyles the help output of command-line programs
built with spf13/cobra or urfave/cli. Help pages are drawn with pterm's
section headers, tables and colours. The library also writes Markdown
documentation for a cobra command tree, and it ships a hidden `ptermCI`
command that fills documentation templates from the repository's GitHub
origin.

This project models the logic under that glue:

- the command-tree Markdown renderer and its helpers (`pcli.go`);
- the pflag usage-line splitter that turns a flag set's usage block into
  two-column rows;
- the string handling of the CI command (`pterm-ci-cmd.go`);
- the urfave/cli and spf13/cobra help adapters (`urfave-cli.go`,
  `spf13-cobra.go`).

pterm's output calls stay symbolic. A header printed by
`HelpSectionPrinter`, a rendered table, a coloured string, a wrapped
paragraph, the title line and the error line are each a constructor of
`Render.Fragment`. A template's output is a `seq<Fragment>`, and Go's
`ret += …` is sequence concatenation. Tables are row sequences.

The modules:

| file | module | models |
|---|---|---|
| `strings.dfy` | `GoStrings` | Go's `strings.Split`, `Join`, `Index`, `Contains`, `HasPrefix`, `HasSuffix`, `TrimPrefix`, `TrimLeft`/`TrimRight` with cutsets, `TrimSpace`, `ReplaceAll`, on Unicode characters |
| `render.dfy` | `Render` | output fragments, section headers, and the sections the adapters share: the usage header (`pcli.go:203-207`), the description (`spf13-cobra.go:66-75`, `urfave-cli.go:95-104`), the copyright line (`utils.go:6-14`) and the table section |
| `flags.dfy` | `FlagTable` | the pflag usage-line splitter (three copies in the source) |
| `pcli.dfy` | `Pcli` | `SetRepo`/`getRepoPath` on a `Meta` object, `getParentString`, the commands and flags templates, the Markdown walk on a `Terminal` object that carries the colour switch, and `GenerateMarkdownDoc` |
| `ci.dfy` | `PtermCi` | origin detection from `git remote -v` output, the setup-step guard, project-field derivation, the template output path and the extension walk |
| `urfave.dfy` | `UrfaveCli` | the in-place flag-name prefixing, the flags, commands and authors tables, the usage line, the three help pages and the payload dispatch |
| `cobra.dfy` | `Spf13Cobra` | the usage line, the help function and the flag-error function |

Loops in the source are methods with `while` loops. Each is proved equal to
a specification function, and the properties are proved about that
function:

- `SetRepo` updates the fields of a `Pcli.Meta` object.
- The colour switch is a field of `Pcli.Terminal`.
- urfave's flag-name loop rewrites an `array<string>` in place.

The cobra adapter's commands and flags templates (`spf13-cobra.go:93-134`)
are the same code as `pcli.go:249-290`. They are modelled once, by
`Pcli.CommandsSection` and `Pcli.FlagsSection`, which `Spf13Cobra.HelpBody`
uses.

Three behaviours of the code are easy to misread, and the model follows
the code in each:

- `generateMarkdownTree` switches colour off at the start of every visible
  node and back ON at its end. It does not restore the previous state, and
  the toggle is per node, not scoped around the whole walk. A hidden command
  leaves the switch untouched (`pcli.go:114-117`, `pcli.go:174`).
- The flag usage column is rejoined with the three-space separator, not
  with single spaces (`pcli.go:282`).
- A Markdown block starts with a path heading, not the title and version.
  Its flags table comes before its commands table (`pcli.go:118-168`).

## Model

| member | source | states |
|---|---|---|
| GoStrings.Utf8Len | urfave-cli.go:148 | Go's `len` of a string is its UTF-8 byte count: at least the number of characters and at most four times it, and equal to it exactly when every character is ASCII. |
| GoStrings.TrimLeftSetFacts | pterm-ci-cmd.go:110 | `TrimLeft(s, cutset)` removes the longest leading run of cutset characters. The result is a suffix of `s`, every removed character is in the set, and the result does not start with one. |
| GoStrings.TrimRightSetFacts | pterm-ci-cmd.go:113 | `TrimRight(s, cutset)` removes the longest trailing run of cutset characters. The result is a prefix of `s`, every removed character is in the set, and the result does not end with one. |
| GoStrings.TrimSpaceFacts | pcli.go:279 | `TrimSpace` never lengthens a string, and a non-empty result neither starts nor ends with white space. |
| GoStrings.TrimSpaceKeeps | pcli.go:282 | A string that neither starts nor ends with white space is unchanged by `TrimSpace`. |
| GoStrings.TrimLeftSetDrops | pterm-ci-cmd.go:110 | `TrimLeft` of a run of cutset characters followed by a string that does not start with one yields exactly that string. |
| GoStrings.TrimRightSetDrops | pterm-ci-cmd.go:113 | `TrimRight` of a string followed by a run of cutset characters yields the string, when it does not end with a cutset character. |
| GoStrings.TrimRightSetKeepsPrefix | pterm-ci-cmd.go:113 | `TrimRight` keeps any prefix whose last character is outside the cutset. |
| GoStrings.TrimSpaceKeepsPrefix | pterm-ci-cmd.go:113 | `TrimSpace` keeps any non-empty prefix whose first and last characters are not white space. |
| GoStrings.TrimPrefix | pterm-ci-cmd.go:62 | Removing a prefix that is present leaves the rest, so that prefix plus result is the input; otherwise the input is unchanged. |
| GoStrings.IndexFrom | pcli.go:280 | The search finds the first occurrence of the separator at or after the start position, and finds none only when there is none. |
| GoStrings.IndexIsFirst | pcli.go:280 | An occurrence with none before it is the index `strings.Index` returns. |
| GoStrings.ContainsInfix | pterm-ci-cmd.go:111 | A string contains every infix of it. |
| GoStrings.ContainsExtend | pterm-ci-cmd.go:111 | Appending text keeps an infix that was contained. |
| GoStrings.Split | pcli.go:50 | `strings.Split` with a non-empty separator returns at least one part. |
| GoStrings.JoinSplit | pcli.go:280-282 | Joining the parts of a split with the same separator gives back the original string. |
| GoStrings.SplitAtFirst | pcli.go:280-282 | With no separator the split is the string alone. Otherwise the first part is the text before the first separator, and the remaining parts rejoined are the text after it. |
| GoStrings.SplitPiecesAvoidSeparator | pcli.go:280 | No part of a split contains the separator. |
| GoStrings.SplitJoinChar | pcli.go:50 | Splitting on a one-character separator that no part contains undoes the join. |
| GoStrings.SplitAfterChar | urfave-cli.go:145 | Splitting on a character gives the text before its first occurrence, then the split of the text after it. |
| GoStrings.SplitTwoLeading | pterm-ci-cmd.go:62 | Two separator-free pieces at the front of a string are the first two parts of its split. |
| GoStrings.SplitCharCount | pcli.go:50-51 | Splitting on a character gives one more part than the string has occurrences of that character. |
| GoStrings.IndexCharAbsent | urfave-cli.go:145 | A character that does not occur is not found. |
| GoStrings.IndexCharAfter | urfave-cli.go:145 | A character's first occurrence is found after a prefix free of it. |
| GoStrings.MapChar | pcli.go:194 | Replacing one character by another keeps the length, and changes exactly the positions holding that character. |
| GoStrings.ReplaceAllChar | pcli.go:194 | `strings.ReplaceAll` with one-character target and replacement is that character-wise map. |
| Render.SectionTitlesAppend | pcli.go:249-290 | The section headers of concatenated output (`ret += …`) are those of each part, in order. |
| Render.UsageHeader | pcli.go:203-207 | The "Usage" header, the grey `>`, the magenta short text and the blank line are printed exactly when the short text is non-empty. The common part of the usage templates is in `spf13-cobra.go:55-59` and `urfave-cli.go:81-85`. |
| Render.DescriptionSection | spf13-cobra.go:66-75 | The "Description" section appears exactly when the description is non-empty. The same code is in `urfave-cli.go:95-104`. |
| Render.CopyrightString | utils.go:6-14 | The copyright line is printed exactly when the copyright is non-empty, and it adds no section header. |
| Render.TableSection | pcli.go:253-262 | A table section has exactly one header, its title. |
| Render.TextHasNoSections | pcli.go:147-151 | Output made of plain text lines carries no section header. |
| Render.ConcatMapAppend | pcli.go:170-172 | Rendering two lists of items one after the other is rendering their concatenation. |
| FlagTable.FlagLine | pcli.go:279-282 | The two columns of one usage line; its meaning is pinned by `FlagLineSplitsAtFirst`, `FlagLineColumns` and `ColumnsRoundTrip`. |
| FlagTable.FlagLineSplitsAtFirst | pcli.go:280-282 | A trimmed usage line with no three-space run gives the whole line as flag and `""` as usage. Otherwise the flag is the text before the first run, and the usage is the trimmed text after it. |
| FlagTable.FlagLineColumns | pcli.go:280-282 | The flag column never contains the separator, and the usage column is already trimmed. |
| FlagTable.ColumnsRoundTrip | pcli.go:280-282 | A flag spec without the separator and not ending in a space, followed by the separator and a usage, splits back into that spec and the trimmed usage. Longer runs of spaces are absorbed by the trim. |
| FlagTable.SingleSpaceHasNoSeparator | pcli.go:280 | Names joined by single spaces, such as `-v, --verbose`, contain no three-space separator. |
| FlagTable.NamesThenUsage | pcli.go:280-282 | A pflag line of the form `short, long` + separator + usage splits into the names and the trimmed usage. |
| FlagTable.NamesThenPlainUsage | pcli.go:280-282 | The same line with a usage that has no outer white space keeps the usage verbatim. |
| FlagTable.VerboseLine | pcli.go:280-282 | The line `-v, --verbose   Enable verbose output` gives the row (`-v, --verbose`, `Enable verbose output`). |
| FlagTable.UsageLines | pcli.go:277 | The lines of the trimmed usage block; `BuildFlagRows` is the loop over them. |
| FlagTable.FlagRows | pcli.go:277-284 | One row per usage line, each `FlagLine` of the trimmed line; `BuildFlagRows` proves the loop computes it. |
| FlagTable.SplitUsageLine | pcli.go:279-283 | The loop body turns one raw usage line into the row of its trimmed line's two columns. |
| FlagTable.BuildFlagRows | pcli.go:277-284 | One row per line of the trimmed usage block, in order. The same loop is at `pcli.go:138-145` and `spf13-cobra.go:121-128`. |
| Pcli.Meta.constructor | pcli.go:32 | A fresh `AppInfo` has empty user and repository names. |
| Pcli.Meta.SetRepo | pcli.go:49-58 | Succeeds exactly when splitting on `/` gives two parts, and then stores them as user and repository names. Otherwise it returns the fixed error message and leaves `AppInfo` unchanged. After success `getRepoPath` returns the argument. |
| Pcli.RepoAcceptsOneSlash | pcli.go:50-51 | A repository string is accepted exactly when it contains one `/`. |
| Pcli.RepoRoundTrip | pcli.go:54-61 | For an accepted string, user + `/` + repository name is the original string. |
| Pcli.RepoFromParts | pcli.go:50-55 | Any user and repository name without `/` form an accepted string, and it splits back into them. |
| Pcli.ParentPath | pcli.go:214-225 | The parent string of a command from its ancestors' names; `ParentPathIsJoin` and `ParentPathEnds` say what it is, and `GetParentString` is the loop that computes it. |
| Pcli.ParentPathIsJoin | pcli.go:214-225 | The parent string is the ancestors' names from the root down, then `Use`, joined with single spaces; for a parentless command it is just `Use`. |
| Pcli.ParentPathEnds | pcli.go:214-225 | The parent string ends with the command's `Use`, and it starts with the root's name and a space when there is a parent. |
| Pcli.GetParentString | pcli.go:214-225 | The loop that prepends each parent's name computes the parent string. |
| Pcli.Visible | pcli.go:255-258 | The children that are not hidden, in order; `VisibleMembers`, `VisibleAppend`, `VisibleAll` and `VisibleNone` pin it down. |
| Pcli.VisibleMembers | pcli.go:255-258 | The filtered list holds exactly the children that are not hidden, and is no longer than the list. |
| Pcli.VisibleAppend | pcli.go:255-258 | Filtering hidden commands distributes over concatenation, so order is kept. |
| Pcli.VisibleAll | pcli.go:255-258 | With no hidden child the filter keeps the whole list. |
| Pcli.VisibleNone | pcli.go:255-258 | With only hidden children the filter keeps nothing. |
| Pcli.LabelWithoutAliases | pcli.go:259 | A command without aliases is labelled by its `Use` and a trailing space. |
| Pcli.CommandsSection | pcli.go:249-266 | The "Commands" header is printed exactly when the child list is non-empty, and nothing at all for an empty list. |
| Pcli.AllHiddenKeepsHeader | pcli.go:252-262 | A non-empty list of hidden children still prints the header, with an empty table. |
| Pcli.CommandRows | pcli.go:254-260 | The rows of the commands table, one per visible child; `CommandTableData` proves the loop computes them and `LabelWithoutAliases` gives a row's label. |
| Pcli.CommandTableData | pcli.go:254-260 | The loop builds one row per visible child, in order, of `Use` plus aliases and `Short`. |
| Pcli.GenerateCommandsTemplate | pcli.go:249-266 | The method builds the commands section. The same code is at `spf13-cobra.go:93-110`. |
| Pcli.FlagsSection | pcli.go:268-290 | For a flag set without flags the result is empty; otherwise it is the "Flags" header and the table. |
| Pcli.GenerateFlagsTemplate | pcli.go:268-290 | The method builds the flags section. The same code is at `spf13-cobra.go:112-134`. |
| Pcli.UsageSection | pcli.go:200-212 | The usage section has a "Usage" header exactly when `Short` is non-empty. |
| Pcli.Heading | pcli.go:118-123 | The heading lines of a Markdown block carry no section header. |
| Pcli.LongBlock | pcli.go:126-128 | The description block of the Markdown carries no section header. |
| Pcli.ExampleBlock | pcli.go:130-132 | The examples block of the Markdown carries no section header. |
| Pcli.MarkdownTable | pcli.go:147-151 | A Markdown table has its section header, two header lines and one line per row. |
| Pcli.PathRows | pcli.go:156-162 | The rows of the Markdown commands table, path and `Short` of every visible child; `PathTableData` is the loop and `PathRowsExtendParent` says what each row holds. |
| Pcli.PathRowsExtendParent | pcli.go:156-162 | In a tree whose paths are built as cobra's `CommandPath()` builds them, each commands-table row holds the command's path, a space and the visible child's name. |
| Pcli.MarkdownFlags | pcli.go:134-152 | The Markdown "Flags" section appears exactly when the flag set has flags. |
| Pcli.MarkdownCommands | pcli.go:154-168 | The Markdown "Commands" section appears exactly when the command has children. |
| Pcli.NodeBlock | pcli.go:117-168 | One node's whole Markdown block: heading, usage, description, examples, flags, commands; `NodeBlockSections` gives its headers and `WriteNodeBlock` is the method that writes it. |
| Pcli.NodeBlockSections | pcli.go:118-168 | A node's own Markdown block has the headers Usage, Flags and Commands, each only when its condition holds, in that order. |
| Pcli.BlocksAppend | pcli.go:170-172 | The blocks of two node lists one after the other are the blocks of their concatenation. |
| Pcli.Walk | pcli.go:113-177 | The recursive walk for any block renderer; `WalkIsPreorder` and `PreorderSkipsHidden` say what it prints. |
| Pcli.MarkdownTree | pcli.go:113-177 | `generateMarkdownTree`'s output; `MarkdownTreeIsPreorder` and `Terminal.GenerateMarkdownTree` tie it to the pre-order and to the recursive method. |
| Pcli.WalkIsPreorder | pcli.go:113-177 | The walk prints, for any block renderer, the blocks of the visible commands in pre-order. A hidden command contributes nothing and hides its subtree. |
| Pcli.WalkChildrenArePreorder | pcli.go:170-172 | The children's walks, in the order `Commands()` returns them, are the blocks of their visible pre-order nodes. |
| Pcli.MarkdownTreeIsPreorder | pcli.go:113-177 | `generateMarkdownTree` is the concatenation of the Markdown blocks of the visible commands in pre-order. |
| Pcli.PreorderSkipsHidden | pcli.go:114-116 | No hidden command is among the documented nodes. |
| Pcli.ChildrenSkipHidden | pcli.go:170-172 | No hidden command is among the nodes of the children's walks. |
| Pcli.AllVisibleIsPreorder | pcli.go:113-177 | In a tree without hidden commands the walk documents every command exactly once, in pre-order. |
| Pcli.AllVisibleChildren | pcli.go:170-172 | Without hidden commands the children's walks visit every descendant in pre-order. |
| Pcli.DocFilename | pcli.go:194 | The file name is the command path with every space replaced by `_`. It has the same length and contains no space. |
| Pcli.MarkdownTableLines | pcli.go:149-151 | The loop writes one Markdown line per row, in order. |
| Pcli.PathTableData | pcli.go:156-162 | The loop builds one row per visible child, in order, of its command path and `Short`. |
| Pcli.WriteMarkdownFlags | pcli.go:134-152 | The method writes the Markdown flags section. |
| Pcli.WriteMarkdownCommands | pcli.go:154-168 | The method writes the Markdown commands section. |
| Pcli.WriteNodeBlock | pcli.go:117-168 | The method writes one node's Markdown block. |
| Pcli.Terminal.constructor | pcli.go:117 | pterm's process-wide colour switch starts on, before any `DisableColor`. |
| Pcli.Terminal.GenerateMarkdownTree | pcli.go:113-177 | The recursive method computes the Markdown tree. Colour is on afterwards for a visible command and unchanged for a hidden one. |
| Pcli.Terminal.GenerateChildTrees | pcli.go:170-172 | The loop over the children computes their walks in the order `Commands()` returns them. |
| Pcli.Footer | pcli.go:106-107 | The rule and the dated "generated with PTerm" line that close the document; `Terminal.GenerateMarkdown` appends it to the tree. |
| Pcli.Terminal.GenerateMarkdown | pcli.go:104-110 | The document is the Markdown tree followed by the dated footer. |
| Pcli.Terminal.GenerateMarkdownDoc | pcli.go:188-198 | A hidden command yields the zero document and leaves colour as it was. A visible one yields a document named by its path, holding the command, the Markdown with footer, and the file name with spaces replaced. |
| PtermCi.CutsetsAreCharSets | pterm-ci-cmd.go:110-113 | The cutsets `"origin"` and `"(push)"` are the sets {o,r,i,g,n} and {(,p,u,s,h,)}. |
| PtermCi.Cleaned | pterm-ci-cmd.go:110 | A remote line with leading `origin` letters cut and white space trimmed; `CleanedRemoteLine` gives it for git's line shape. |
| PtermCi.Qualifies | pterm-ci-cmd.go:111 | A cleaned line starting with `https://github.com/` and containing `push`; `OriginURLIsFirstMatch`, `PushLineRoundTrip` and `FetchLineMisread` use it. |
| PtermCi.PushURL | pterm-ci-cmd.go:110-113 | The URL taken from a qualifying line; `PushMarkCut`, `PushURLKeepsPrefix` and `FetchMarkCut` say what it yields. |
| PtermCi.DetectOriginURL | pterm-ci-cmd.go:102-120 | The loop over the lines of the `git remote -v` output returns the origin URL of the first qualifying line, or `""`. |
| PtermCi.OriginURL | pterm-ci-cmd.go:109-119 | The detected origin URL of the `git remote -v` output; `OriginURLIsFirstMatch` and `OriginURLFound` pin it down, and `DetectOriginURL` is the loop. |
| PtermCi.OriginURLIsFirstMatch | pterm-ci-cmd.go:109-116 | When line `k` is the first that qualifies (after the cutset and white-space trim it starts with `https://github.com/` and contains `push`), the result is that line with its trailing {(,p,u,s,h,)} characters and then white space trimmed. |
| PtermCi.OriginURLFound | pterm-ci-cmd.go:109-119 | The result is non-empty exactly when some line qualifies. |
| PtermCi.PushURLKeepsPrefix | pterm-ci-cmd.go:111-113 | A returned URL still starts with `https://github.com/`. |
| PtermCi.OriginLetters | pterm-ci-cmd.go:110 | Every letter of the word `origin` is in the cutset, so the trim strips it. |
| PtermCi.CleanedRemoteLine | pterm-ci-cmd.go:110 | For a line `origin<TAB>url<tail>` the cleaned line is `url<tail>`. |
| PtermCi.SpaceAfterURL | pterm-ci-cmd.go:113 | A URL followed by one space is trimmed back to the URL. |
| PtermCi.PushMarkDropped | pterm-ci-cmd.go:113 | The cutset trim removes ` (push)` back to the URL's space. |
| PtermCi.PushMarkCut | pterm-ci-cmd.go:113 | Both trims together give back the URL of a push line. |
| PtermCi.PushLineRoundTrip | pterm-ci-cmd.go:109-116 | The push line for a GitHub URL qualifies, and yields exactly that URL. |
| PtermCi.RemoteRoundTrip | pterm-ci-cmd.go:102-120 | For git's two origin lines (fetch, then push) of a URL whose fetch line does not contain `push`, the detected URL is the URL. |
| PtermCi.FetchMarkEaten | pterm-ci-cmd.go:113 | The cutset trim of a fetch line stops at the `e` and removes only `h)`. |
| PtermCi.FetchRemainderTrimmed | pterm-ci-cmd.go:113 | The white-space trim leaves that remainder unchanged. |
| PtermCi.FetchMarkCut | pterm-ci-cmd.go:113 | Both trims turn `url (fetch)` into `url (fetc`. |
| PtermCi.FetchLineMisread | pterm-ci-cmd.go:109-116 | When the URL itself contains `push`, the fetch line qualifies first, and the detected URL is `url (fetc`. |
| PtermCi.IntendedReadsPushLine | pterm-ci-cmd.go:109-116 | The corrected detection picks the push line and strips the `(push)` mark, giving the URL for every GitHub URL. |
| PtermCi.FetchLineIsNotPushLine | pterm-ci-cmd.go:109-113 | The fetch line does not end with the `(push)` mark, so the corrected reading skips it. |
| PtermCi.PushLineIsPushLine | pterm-ci-cmd.go:109-113 | The push line ends with the mark, and the corrected reading without the mark is the URL. |
| PtermCi.ShouldRunSetup | pterm-ci-cmd.go:29-30 | Setup runs when the origin URL does not contain `/cli-template` and the setup script exists; `TemplateRepositorySkipsSetup` states the guard's purpose. |
| PtermCi.TemplateRepositorySkipsSetup | pterm-ci-cmd.go:29-30 | An origin URL containing `/cli-template` never runs the setup step. |
| PtermCi.ProjectParts | pterm-ci-cmd.go:62 | The `/`-segments of the origin URL after the GitHub prefix; `DeriveProject`, `ProjectNeedsSlash` and `LeadingSegments` pin it down. |
| PtermCi.DeriveProject | pterm-ci-cmd.go:62-76 | The user and repository names are, in that order, the first two `/`-separated segments after the GitHub prefix; name, short and long text come from the root command. The project path is user `/` repository, the URL is the GitHub prefix plus the path, the Pages URL is `https://<user>.github.io/<repo>`, and every install command contains the project path. |
| PtermCi.ProjectNeedsSlash | pterm-ci-cmd.go:62-65 | The two segments exist exactly when the URL after the GitHub prefix contains a `/`. |
| PtermCi.ProjectRoundTrip | pterm-ci-cmd.go:62-68 | For the origin URL of a user and a repository the derived user, repository and URL are those. |
| PtermCi.ProjectIgnoresDeeperPath | pterm-ci-cmd.go:62-68 | An origin URL with more path after the repository, such as `.../<user>/<repo>/tree/main`, still gives that user and repository, and the project URL drops the rest. |
| PtermCi.DeriveFromSegments | pterm-ci-cmd.go:64-68 | The derived user, repository and project URL depend only on the first two segments. |
| PtermCi.PrefixTrimmed | pterm-ci-cmd.go:62 | The GitHub prefix comes off a URL that starts with it. |
| PtermCi.LeadingSegments | pterm-ci-cmd.go:62-65 | The first two `/`-segments of a path are the text before the first slash and the text between the first and second. |
| PtermCi.TemplateOutputPath | pterm-ci-cmd.go:85 | The output file of a template is its path with every `.template` removed; `TemplateOutputDropsMarker` pins it down. |
| PtermCi.TemplateOutputDropsMarker | pterm-ci-cmd.go:85 | A path `stem.template.ext` is written to `stem.ext`. |
| PtermCi.WalkCalls | pterm-ci-cmd.go:122-131 | The callback calls over all walked paths, in order; `WalkOverExt` proves the nested loop computes it. |
| PtermCi.ExtCalls | pterm-ci-cmd.go:124-128 | The callback is called at most once per extension, and always with the path. |
| PtermCi.MatchExtensions | pterm-ci-cmd.go:124-128 | The inner loop calls the callback once for each extension the path ends with, in list order. |
| PtermCi.WalkOverExt | pterm-ci-cmd.go:122-131 | Over the walked paths, the calls are those of each path against the comma-separated extensions. |
| PtermCi.ExtCallsNone | pterm-ci-cmd.go:124-128 | The callback is never called exactly when the path ends with none of the extensions. |
| PtermCi.CiExtensionsSplit | pterm-ci-cmd.go:80 | The CI extension string splits into the four template extensions. |
| PtermCi.SplitFour | pterm-ci-cmd.go:124 | Four extensions joined by commas, none containing a comma, split back into the four. |
| PtermCi.SuffixEnds | pterm-ci-cmd.go:125 | A path that ends with an extension ends with every tail of that extension. |
| PtermCi.ExtCallsAtMostOne | pterm-ci-cmd.go:124-128 | When no path can end with two of the extensions, the callback runs at most once. |
| PtermCi.CiEndingsOfExtensions | pterm-ci-cmd.go:80 | The four CI extensions end in four different three-character tails. |
| PtermCi.CiRendersOnce | pterm-ci-cmd.go:80-89 | Every template file is rendered at most once. |
| UrfaveCli.Dashed | urfave-cli.go:148-152 | A flag name as shown, with Go's byte length deciding between one and two dashes; `UndashDashed`, `DashedShape` and `NonAsciiNameIsLong` pin it down. |
| UrfaveCli.UndashDashed | urfave-cli.go:147-153 | The dashed name determines the name: stripping the dashes gives it back. |
| UrfaveCli.DashedShape | urfave-cli.go:148-152 | Names of more than one UTF-8 byte get `--`; others get `-`; the name follows the dashes. For ASCII names this is exactly "more than one character". |
| UrfaveCli.NonAsciiNameIsLong | urfave-cli.go:148 | A one-character name outside ASCII, such as `é`, takes more than one byte and is shown with two dashes. |
| UrfaveCli.DashedNames | urfave-cli.go:147-153 | The rewritten names keep their number and order; each starts with a dash and gives back the name at the same position when its dashes are taken off. |
| UrfaveCli.PrefixFlagNames | urfave-cli.go:146-153 | The loop rewrites the slice in place into its dashed names. |
| UrfaveCli.FlagNamesLabel | urfave-cli.go:147-154 | The dashed names joined with `, `; `DashedNames` and `PrefixFlagNames` pin it down. |
| UrfaveCli.FlagUsage | urfave-cli.go:145-155 | The second tab field of a flag's text; `FlagUsageField` says which text that is. |
| UrfaveCli.TabFields | urfave-cli.go:145 | A flag string with a tab splits into at least two tab fields. |
| UrfaveCli.FlagUsageField | urfave-cli.go:145-155 | The usage column is the field after the first tab, whether or not more fields follow. |
| UrfaveCli.UsageIsLastField | urfave-cli.go:145-155 | For `spec<TAB>usage` the usage column is `usage`. |
| UrfaveCli.UsageIsMiddleField | urfave-cli.go:145-155 | For `spec<TAB>usage<TAB>rest` the usage column is `usage`. |
| UrfaveCli.FlagRow | urfave-cli.go:145-155 | One flags-table row, names label beside usage field; `FlagRowOf` proves the loop body computes it. |
| UrfaveCli.FlagRows | urfave-cli.go:143-156 | One row per flag, in order; `FlagTableData` is the loop. |
| UrfaveCli.FlagsSection | urfave-cli.go:138-162 | The "Flags" section appears exactly for a non-empty flag list, and it then ends with a blank line. |
| UrfaveCli.FlagRowOf | urfave-cli.go:145-155 | A flag's row is its dashed names joined with `, `, and its usage field. |
| UrfaveCli.FlagTableData | urfave-cli.go:143-156 | The loop builds one row per flag, in order. |
| UrfaveCli.GenerateFlagsTemplate | urfave-cli.go:138-162 | The method builds the flags section. |
| UrfaveCli.CommandRows | urfave-cli.go:127-130 | One row per command, so as many rows as commands; `CommandRowsAppend` and `CommandLabelRoundTrip` fix each row, and `CommandTableData` is the loop. |
| UrfaveCli.CommandLabelRoundTrip | urfave-cli.go:129 | A command label splits on spaces back into the name and the aliases, when none of them holds a space. With no aliases the label is the name and a trailing space. |
| UrfaveCli.CommandRowsAppend | urfave-cli.go:127-130 | The rows of two command lists are the rows of each, in order, and one command's row is its label beside its plain `Usage`. |
| UrfaveCli.CommandsSection | urfave-cli.go:122-136 | The "Commands" section appears exactly for a non-empty list. |
| UrfaveCli.CommandTableData | urfave-cli.go:127-130 | The loop builds the command rows. |
| UrfaveCli.GenerateCommandsTemplate | urfave-cli.go:122-136 | The method builds the commands section. |
| UrfaveCli.AuthorRows | urfave-cli.go:111-114 | One row per author, so as many rows as authors; `AuthorRowsAppend` fixes each row, and `AuthorTableData` is the loop. |
| UrfaveCli.AuthorRowsAppend | urfave-cli.go:111-114 | The rows of two author lists are the rows of each, in order, and one author's row is the plain name beside the grey e-mail address. |
| UrfaveCli.AuthorsSection | urfave-cli.go:106-120 | The "Authors" section appears exactly for a non-empty author list. |
| UrfaveCli.AuthorTableData | urfave-cli.go:111-114 | The loop builds the author rows. |
| UrfaveCli.GenerateAuthorsTemplate | urfave-cli.go:106-120 | The method builds the authors section. |
| UrfaveCli.UsageTemplate | urfave-cli.go:78-93 | A "Usage" header exactly for a non-empty usage. The last line is the usage text verbatim when it is non-empty, and otherwise `<main app name> [global options] command [options] [arguments...]`. |
| UrfaveCli.HelpPrinterCustom | urfave-cli.go:24-36 | A payload that is neither a command nor an app prints nothing. A command gets a page with the Usage, Description and Flags headers; the main app itself the app page, with Authors before Usage; any other app the subcommand page, with Authors after Usage and Description. Each page starts with the title of its help name and the main app's version. |
| UrfaveCli.AppHelp | urfave-cli.go:38-50 | The app page; `AppHelpSections` gives its headers. |
| UrfaveCli.CommandHelp | urfave-cli.go:52-62 | The command page; `CommandHelpSections` gives its headers. |
| UrfaveCli.SubcommandHelp | urfave-cli.go:64-76 | The subcommand page; `SubcommandHelpSections` gives its headers. |
| UrfaveCli.AppHelpSections | urfave-cli.go:38-50 | The app page's headers are Authors, Usage, Description, Commands, Flags, each only when present, in that order. |
| UrfaveCli.SubcommandHelpSections | urfave-cli.go:64-76 | The subcommand page's headers are Usage, Description, Authors, Commands, Flags, each only when present, in that order. |
| UrfaveCli.CommandHelpSections | urfave-cli.go:52-62 | The command page's headers are Usage, Description, Flags, each only when present, in that order. |
| UrfaveCli.AuthorsPlacement | urfave-cli.go:41-43 | With authors and a usage, the app page puts Authors before Usage while the subcommand page opens with Usage (`urfave-cli.go:67-70`). |
| UrfaveCli.DispatchCommand | urfave-cli.go:26-27 | A command payload gets a page without Authors or Commands sections. |
| UrfaveCli.DispatchMainApp | urfave-cli.go:28-30 | The main app with authors and a usage text gets a page that opens with Authors and then Usage. |
| UrfaveCli.DispatchOtherApp | urfave-cli.go:31-32 | Any other app with authors and a usage text gets a page that opens with Usage and lists Authors later, which the app page never does. |
| Spf13Cobra.UsageTemplate | spf13-cobra.go:52-64 | A "Usage" header exactly for a non-empty `Short`, and the usage line is always the root command's `Use` and the fixed tail. |
| Spf13Cobra.UsageIgnoresSubcommand | spf13-cobra.go:61 | Two commands with the same `Short` get the same usage section, whatever their place in the tree. |
| Spf13Cobra.UsageLineDrift | spf13-cobra.go:61 | The help function's usage line is the root's `Use`, while the Markdown walk's line is the command's parent path, which starts with the root's name and ends with the command's `Use` (`pcli.go:209`). |
| Spf13Cobra.HelpBody | spf13-cobra.go:20-24 | The sections both cobra functions print; `HelpBodySections` gives its headers. |
| Spf13Cobra.HelpBodySections | spf13-cobra.go:20-24 | The shared body starts with the root's title, and its headers are Usage, Description, Commands, Flags, each only when present, in that order. |
| Spf13Cobra.HelpOutput | spf13-cobra.go:16-29 | The help output starts with the root's title, has the headers Usage, Description, Commands and Flags, each only when present, in that order, and ends with a line break. |
| Spf13Cobra.FlagErrorOutput | spf13-cobra.go:35-50 | The flag-error output starts with the root's title, has the same headers as the help output, ends with the error line, and the function returns no error. |
| Spf13Cobra.EndingsAddNoSections | spf13-cobra.go:25 | Neither the help function's ending nor the flag-error function's ending adds a header (`spf13-cobra.go:44-45`). |
| Spf13Cobra.ErrorOutputMatchesHelp | spf13-cobra.go:39-45 | The flag-error output and the help output agree up to their endings and have the same headers in the same order. |

## Left out

- `CheckForUpdates` (`pcli.go:65-97`): an HTTP request to GitHub, JSON extraction and an OS-dependent install hint. All of it is network I/O.
- Process and file-system effects of the CI command: running `git`, `go run`, `os.Stat`, `RemoveAll`, reading and writing files, `filepath.Walk` and `getPathTo`. The output of `git remote -v`, whether `setup/main.go` exists, and the list of walked paths are parameters.
- `text/template` execution of the CI templates, and the copy of README into docs.
- pterm's rendering (colours, paragraph wrapping, table layout, `Sprintfln`'s line break on the symbolic fragments) and `HelpSectionPrinter`. That function is not part of this model; its call is a `Section` fragment.
- `time.Now` in the Markdown footer: the date is a parameter of `GenerateMarkdown`.
- cobra and pflag internals (`CommandPath`, `Name`, `Parent`, `Commands`, `HasFlags`, `FlagUsages`) and urfave/cli's `VisibleCommands`, `VisibleFlags`, `Names` and `String`. Their results are fields of the command datatypes.
- `reflect.DeepEqual` in the urfave dispatch is datatype equality.
- `cobra-replacements.go` only forwards to the root command and re-composes the helpers of `pcli.go`.
- `GenerateVersionString` and `UrfaveCliVersionPrinter` (`utils.go:16-23`, `urfave-cli.go:16-18`): a single styled print with no logic.
- `generateDescriptionTemplate` and `generateExamplesTemplate` of `pcli.go:227-247` are not called by the modelled code.
- `spf13CobraGenerateAuthorsTemplate` (`spf13-cobra.go:77-91`) is never called. Its code is the same as urfave's, which `UrfaveCli.AuthorsSection` models.
- Go strings are byte sequences; the model works on Unicode characters. The one place the code reads a byte length, `len(name)` at `urfave-cli.go:148`, is modelled by `GoStrings.Utf8Len`; `TrimLeft`/`TrimRight` work on runes in Go as here.
- PtermCi.DeriveProject: requires two `/`-separated segments, where Go would panic on `projectParts[1]`.
- UrfaveCli.FlagsSection: requires a tab in every flag's string, where Go would panic on `parts[1]`. The same holds for `FlagRowOf`, `FlagTableData`, `GenerateFlagsTemplate`, `AppHelp`, `CommandHelp`, `SubcommandHelp` and `HelpPrinterCustom`.
- Pcli.Terminal.GenerateChildTrees: states the Markdown it computes but not the colour switch afterwards. The enclosing `GenerateMarkdownTree` sets colour on at its end whatever the children did.
- Concurrency: the process-wide colour switch is one field of one `Terminal` object.

## Findings

| source | as written | input that shows it | evidently intended | confidence | as-written member | corrected member |
|---|---|---|---|---|---|---|
| pterm-ci-cmd.go:109-116 | A line qualifies when it contains `push` anywhere. The URL is cut with `TrimRight(s, "(push)")`, which strips any trailing characters from the set {(,p,u,s,h,)}, not the suffix `(push)`. | The origin `https://github.com/user/pushy`. git prints the fetch line first; it qualifies, and `TrimRight` removes only `h)` from ` (fetch)`. The detected URL is `https://github.com/user/pushy (fetc`. | Select the push line, remove its `(push)` suffix, and trim white space. | not executed | PtermCi.FetchLineMisread | PtermCi.IntendedReadsPushLine |
