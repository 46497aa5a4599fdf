/** The string logic of the hidden `ptermCI` command: finding the GitHub
    origin in the output of `git remote -v`, deciding whether the template
    setup runs, deriving the project fields handed to the templates, the
    output path of a template, and the extension match of the file walk.
    Running git and go, the file system and template execution are not part
    of this model; their results are inputs. */
module PtermCi {
  import opened GoStrings
  import Pcli

  const GitHubPrefix: string := "https://github.com/"
  const OriginWord: string := "origin"
  const PushWord: string := "push"
  const PushMark: string := "(push)"

  /** The cutsets passed to `TrimLeft` and `TrimRight`, as sets of characters. */
  const OriginCut: set<char> := {'o', 'r', 'i', 'g', 'n'}
  const PushCut: set<char> := {'(', 'p', 'u', 's', 'h', ')'}

  /** Go reads a cutset string as the set of its characters. */
  lemma CutsetsAreCharSets()
    ensures CharSet(OriginWord) == OriginCut
    ensures CharSet(PushMark) == PushCut
  {
  }

  // ---------------------------------------------------------------------
  // `detectOriginURL`
  // ---------------------------------------------------------------------

  /** A line of `git remote -v` with its leading letters from the set
      {o, r, i, g, n} cut off, then trimmed. */
  function Cleaned(line: string): string {
    TrimSpace(TrimLeftSet(line, OriginCut))
  }

  /** A line is taken when its cleaned text starts with the GitHub prefix and
      contains "push" anywhere. */
  predicate Qualifies(line: string) {
    HasPrefix(Cleaned(line), GitHubPrefix) && Contains(Cleaned(line), PushWord)
  }

  /** The URL read from a line: the cleaned text with its trailing characters
      from the set {(, p, u, s, h, )} cut off, then trimmed. */
  function PushURL(line: string): string {
    TrimSpace(TrimRightSet(Cleaned(line), PushCut))
  }

  /** The URL of the first line that is taken, or "" when none is. */
  function OriginURL(lines: seq<string>): string
    decreases |lines|
  {
    if lines == [] then ""
    else if Qualifies(lines[0]) then PushURL(lines[0])
    else OriginURL(lines[1..])
  }

  /** The lines of git's output. */
  function GitLines(output: string): seq<string> {
    Split(output, "\n")
  }

  /** `detectOriginURL`, with the output of `git remote -v` as its input. */
  method DetectOriginURL(output: string) returns (url: string)
    ensures url == OriginURL(GitLines(output))
  {
    url := "";
    var lines := GitLines(output);
    var k := 0;
    while k < |lines|
      invariant 0 <= k <= |lines|
      invariant OriginURL(lines[k..]) == OriginURL(lines)
    {
      var s := TrimSpace(TrimLeftSet(lines[k], OriginCut));
      assert lines[k..][0] == lines[k] && lines[k..][1..] == lines[k + 1..];
      if HasPrefix(s, GitHubPrefix) && Contains(s, PushWord) {
        url := TrimSpace(TrimRightSet(s, PushCut));
        return;
      }
      k := k + 1;
    }
  }

  /** The URL comes from the first line that is taken. */
  lemma {:induction false} OriginURLIsFirstMatch(lines: seq<string>, k: nat)
    requires k < |lines| && Qualifies(lines[k])
    requires forall j :: 0 <= j < k ==> !Qualifies(lines[j])
    ensures OriginURL(lines) == PushURL(lines[k])
    decreases k
  {
    if k > 0 {
      OriginURLIsFirstMatch(lines[1..], k - 1);
    }
  }

  /** A URL read from a line that is taken keeps the GitHub prefix. */
  lemma PushURLKeepsPrefix(line: string)
    requires Qualifies(line)
    ensures HasPrefix(PushURL(line), GitHubPrefix)
  {
    var s := Cleaned(line);
    assert GitHubPrefix[|GitHubPrefix| - 1] == '/';
    TrimRightSetKeepsPrefix(s, PushCut, GitHubPrefix);
    TrimSpaceKeepsPrefix(TrimRightSet(s, PushCut), GitHubPrefix);
  }

  /** The result is empty exactly when no line is taken. */
  lemma {:induction false} OriginURLFound(lines: seq<string>)
    ensures OriginURL(lines) != "" <==> exists j :: 0 <= j < |lines| && Qualifies(lines[j])
    decreases |lines|
  {
    if lines != [] {
      if Qualifies(lines[0]) {
        PushURLKeepsPrefix(lines[0]);
      } else {
        OriginURLFound(lines[1..]);
        if exists j :: 0 <= j < |lines| && Qualifies(lines[j]) {
          var j :| 0 <= j < |lines| && Qualifies(lines[j]);
          assert lines[1..][j - 1] == lines[j];
        }
        if exists j :: 0 <= j < |lines| - 1 && Qualifies(lines[1..][j]) {
          var j :| 0 <= j < |lines| - 1 && Qualifies(lines[1..][j]);
          assert lines[j + 1] == lines[1..][j];
        }
      }
    }
  }

  /** Every letter of "origin" is in its cutset. */
  lemma OriginLetters()
    ensures forall i :: 0 <= i < |OriginWord| ==> OriginWord[i] in OriginCut
  {
  }

  /** A remote line `origin<TAB>url<tail>` cleans to `url<tail>`. */
  lemma CleanedRemoteLine(url: string, tail: string)
    requires HasPrefix(url, GitHubPrefix)
    requires tail != [] && tail[|tail| - 1] !in Whitespace
    ensures Cleaned(OriginWord + "\t" + url + tail) == url + tail
  {
    var rest := "\t" + url + tail;
    OriginLetters();
    assert OriginWord + "\t" + url + tail == OriginWord + rest;
    TrimLeftSetDrops(OriginWord, rest, OriginCut);
    assert url[0] == 'h';
    assert rest == "\t" + (url + tail);
    TrimLeftSetDrops("\t", url + tail, Whitespace);
    TrimRightSetDrops(url + tail, "", Whitespace);
    assert TrimLeftSet(rest, Whitespace) == url + tail;
  }

  /** `TrimSpace` removes the one space after a URL. */
  lemma SpaceAfterURL(url: string)
    requires HasPrefix(url, GitHubPrefix) && url[|url| - 1] !in Whitespace
    ensures TrimSpace(url + " ") == url
  {
    assert url[0] == 'h';
    TrimLeftSetStops(url + " ", Whitespace);
    TrimRightSetDrops(url, " ", Whitespace);
  }

  /** The cutset {(, p, u, s, h, )} removes the "(push)" mark. */
  lemma PushMarkDropped(url: string)
    requires url != [] && url[|url| - 1] !in Whitespace
    ensures TrimRightSet(url + " (push)", PushCut) == url + " "
  {
    PushMarkSpelled(url);
    PushMarkInCut();
    var rest := url + " ";
    assert rest[|rest| - 1] !in PushCut;
    TrimRightSetDrops(rest, PushMark, PushCut);
  }

  /** A push line ends with a space and the mark. */
  lemma PushMarkSpelled(url: string)
    ensures url + " (push)" == (url + " ") + PushMark
  {
    var mark := " (push)";
    assert mark == " " + PushMark;
  }

  /** Every character of the mark is in the cutset. */
  lemma PushMarkInCut()
    ensures forall i :: 0 <= i < |PushMark| ==> PushMark[i] in PushCut
  {
  }

  /** Cutting the "(push)" mark and the space before it leaves the URL. */
  lemma PushMarkCut(url: string)
    requires HasPrefix(url, GitHubPrefix) && url[|url| - 1] !in Whitespace
    ensures TrimSpace(TrimRightSet(url + " (push)", PushCut)) == url
  {
    PushMarkDropped(url);
    SpaceAfterURL(url);
  }

  /** Reading the push line of a remote gives back its URL. */
  lemma PushLineRoundTrip(url: string)
    requires HasPrefix(url, GitHubPrefix) && url[|url| - 1] !in Whitespace
    ensures Qualifies(OriginWord + "\t" + url + " (push)")
    ensures PushURL(OriginWord + "\t" + url + " (push)") == url
  {
    CleanedRemoteLine(url, " (push)");
    assert url + " (push)" == (url + " (") + PushWord + ")";
    ContainsInfix(url + " (", PushWord, ")");
    PushMarkCut(url);
  }

  /** What `git remote -v` prints for one remote: the fetch line, then the push line. */
  function RemoteLines(url: string): seq<string> {
    [OriginWord + "\t" + url + " (fetch)", OriginWord + "\t" + url + " (push)"]
  }

  /** For a repository whose URL does not contain "push", the origin URL is
      read back as it is. */
  lemma RemoteRoundTrip(url: string)
    requires HasPrefix(url, GitHubPrefix) && url[|url| - 1] !in Whitespace
    requires !Contains(url + " (fetch)", PushWord)
    ensures OriginURL(RemoteLines(url)) == url
  {
    var lines := RemoteLines(url);
    CleanedRemoteLine(url, " (fetch)");
    PushLineRoundTrip(url);
    assert !Qualifies(lines[0]);
    assert lines[1..][0] == lines[1];
  }

  /** The cutset {(, p, u, s, h, )} eats the "h)" of a "(fetch)" mark. */
  lemma FetchMarkEaten(url: string)
    requires url != []
    ensures TrimRightSet(url + " (fetch)", PushCut) == url + " (fetc"
  {
    var mark := " (fetch)";
    assert mark == " (fetc" + "h)";
    assert url + mark == (url + " (fetc") + "h)";
    TrimRightSetDrops(url + " (fetc", "h)", PushCut);
  }

  /** What is left of a fetch line after the cut is not trimmed any further. */
  lemma FetchRemainderTrimmed(url: string)
    requires HasPrefix(url, GitHubPrefix)
    ensures TrimSpace(url + " (fetc") == url + " (fetc"
  {
    var s := url + " (fetc";
    assert s[0] == 'h' && s[|s| - 1] == 'c';
    TrimSpaceKeeps(s);
  }

  /** Reading a fetch line keeps part of its mark. */
  lemma FetchMarkCut(url: string)
    requires HasPrefix(url, GitHubPrefix)
    ensures TrimSpace(TrimRightSet(url + " (fetch)", PushCut)) == url + " (fetc"
  {
    FetchMarkEaten(url);
    FetchRemainderTrimmed(url);
  }

  /** The fetch line of a repository whose name contains "push" is taken
      first, and the cutset eats into its "(fetch)" mark. */
  lemma FetchLineMisread(url: string)
    requires HasPrefix(url, GitHubPrefix) && url[|url| - 1] !in Whitespace
    requires Contains(url, PushWord)
    ensures OriginURL(RemoteLines(url)) == url + " (fetc"
  {
    var lines := RemoteLines(url);
    CleanedRemoteLine(url, " (fetch)");
    ContainsExtend(url, PushWord, " (fetch)");
    FetchMarkCut(url);
    assert Qualifies(lines[0]);
  }

  /** The line that was meant: the cleaned text starts with the GitHub prefix
      and ends with the "(push)" mark. */
  predicate IsPushLine(line: string) {
    HasPrefix(Cleaned(line), GitHubPrefix) && HasSuffix(Cleaned(line), PushMark)
  }

  /** The URL that was meant: the cleaned text without its "(push)" mark, trimmed. */
  function IntendedPushURL(line: string): string
    requires IsPushLine(line)
  {
    var s := Cleaned(line);
    TrimSpace(s[..|s| - |PushMark|])
  }

  /** `detectOriginURL` as evidently intended: the URL of the first push line. */
  function IntendedOriginURL(lines: seq<string>): string
    decreases |lines|
  {
    if lines == [] then ""
    else if IsPushLine(lines[0]) then IntendedPushURL(lines[0])
    else IntendedOriginURL(lines[1..])
  }

  /** The intended reading gives back every remote's URL, "push" in its name or not. */
  lemma IntendedReadsPushLine(url: string)
    requires HasPrefix(url, GitHubPrefix) && url[|url| - 1] !in Whitespace
    ensures IntendedOriginURL(RemoteLines(url)) == url
  {
    var lines := RemoteLines(url);
    FetchLineIsNotPushLine(url);
    PushLineIsPushLine(url);
    assert lines[1..] == [lines[1]];
  }

  /** The fetch line does not end with the "(push)" mark. */
  lemma FetchLineIsNotPushLine(url: string)
    requires HasPrefix(url, GitHubPrefix)
    ensures !IsPushLine(OriginWord + "\t" + url + " (fetch)")
  {
    CleanedRemoteLine(url, " (fetch)");
    var f := url + " (fetch)";
    assert f[|f| - |PushMark|] == 'f';
  }

  /** The push line ends with the mark, and without it is the URL. */
  lemma PushLineIsPushLine(url: string)
    requires HasPrefix(url, GitHubPrefix) && url[|url| - 1] !in Whitespace
    ensures IsPushLine(OriginWord + "\t" + url + " (push)")
    ensures IntendedPushURL(OriginWord + "\t" + url + " (push)") == url
  {
    CleanedRemoteLine(url, " (push)");
    PushMarkSpelled(url);
    var rest := url + " ";
    assert (rest + PushMark)[|rest|..] == PushMark;
    assert (rest + PushMark)[..|rest|] == rest;
    SpaceAfterURL(url);
  }

  // ---------------------------------------------------------------------
  // The setup step
  // ---------------------------------------------------------------------

  const TemplateRepo: string := "/cli-template"

  /** The setup script runs for a project made from the template, never for
      the template repository itself; whether `setup/main.go` exists is an input. */
  predicate ShouldRunSetup(originURL: string, setupExists: bool) {
    !Contains(originURL, TemplateRepo) && setupExists
  }

  /** The template repository itself never runs the setup script. */
  lemma TemplateRepositorySkipsSetup(before: string, after: string, setupExists: bool)
    ensures !ShouldRunSetup(before + TemplateRepo + after, setupExists)
  {
    ContainsInfix(before, TemplateRepo, after);
  }

  // ---------------------------------------------------------------------
  // The project fields
  // ---------------------------------------------------------------------

  const WindowsOpen: string := "iwr -useb instl.sh/"
  const WindowsClose: string := "/windows | iex"
  const UnixOpen: string := "curl -fsSL instl.sh/"
  const LinuxClose: string := "/linux | bash"
  const MacOSClose: string := "/macos | bash"
  const PagesOpen: string := "https://"
  const PagesMiddle: string := ".github.io/"

  /** The values handed to the templates. */
  datatype Project = Project(
    projectPath: string,
    name: string,
    repoName: string,
    userName: string,
    url: string,
    short: string,
    long: string,
    gitHubPagesURL: string,
    installCommandWindows: string,
    installCommandLinux: string,
    installCommandMacOS: string)

  /** The "/"-separated segments of the origin URL without the GitHub prefix. */
  function ProjectParts(originURL: string): seq<string> {
    Split(TrimPrefix(originURL, GitHubPrefix), "/")
  }

  /** The project fields derived from the origin URL and the root command.
      Go reads `projectParts[1]` without a check, so fewer than two segments
      is a run-time panic; here it is the precondition. */
  function DeriveProject(originURL: string, name: string, short: string, long: string): (p: Project)
    requires |ProjectParts(originURL)| >= 2
    ensures p.userName == ProjectParts(originURL)[0] && p.repoName == ProjectParts(originURL)[1]
    ensures p.name == name && p.short == short && p.long == long
    ensures p.projectPath == p.userName + "/" + p.repoName
    ensures p.url == GitHubPrefix + p.projectPath
    ensures p.gitHubPagesURL == PagesOpen + p.userName + PagesMiddle + p.repoName
    ensures Contains(p.installCommandWindows, p.projectPath)
    ensures Contains(p.installCommandLinux, p.projectPath)
    ensures Contains(p.installCommandMacOS, p.projectPath)
  {
    var parts := ProjectParts(originURL);
    var projectPath := parts[0] + "/" + parts[1];
    ContainsInfix(WindowsOpen, projectPath, WindowsClose);
    ContainsInfix(UnixOpen, projectPath, LinuxClose);
    ContainsInfix(UnixOpen, projectPath, MacOSClose);
    Project(
      projectPath, name, parts[1], parts[0], GitHubPrefix + projectPath, short, long,
      PagesOpen + parts[0] + PagesMiddle + parts[1],
      WindowsOpen + projectPath + WindowsClose,
      UnixOpen + projectPath + LinuxClose,
      UnixOpen + projectPath + MacOSClose)
  }

  /** The derivation can run exactly when a "/" follows the prefix. */
  lemma ProjectNeedsSlash(originURL: string)
    ensures |ProjectParts(originURL)| >= 2 <==> '/' in TrimPrefix(originURL, GitHubPrefix)
  {
    SplitCharCount(TrimPrefix(originURL, GitHubPrefix), '/');
  }

  /** A repository URL `https://github.com/<user>/<repo>` gives back its user,
      its repository and itself as the project URL. */
  lemma ProjectRoundTrip(user: string, repo: string, name: string, short: string, long: string)
    requires '/' !in user && '/' !in repo
    ensures |ProjectParts(GitHubPrefix + user + "/" + repo)| >= 2
    ensures var p := DeriveProject(GitHubPrefix + user + "/" + repo, name, short, long);
      p.userName == user && p.repoName == repo && p.url == GitHubPrefix + user + "/" + repo
  {
    var originURL := GitHubPrefix + user + "/" + repo;
    assert originURL == GitHubPrefix + (user + "/" + repo);
    assert HasPrefix(originURL, GitHubPrefix);
    assert TrimPrefix(originURL, GitHubPrefix) == user + "/" + repo;
    Pcli.RepoFromParts(user, repo);
  }

  /** A URL with more path after the repository, such as
      `https://github.com/<user>/<repo>/tree/main`, still gives the user and
      the repository; the rest of the path is dropped from the project URL. */
  lemma ProjectIgnoresDeeperPath(user: string, repo: string, rest: string, name: string, short: string, long: string)
    requires '/' !in user && '/' !in repo
    ensures |ProjectParts(GitHubPrefix + user + "/" + repo + "/" + rest)| >= 2
    ensures var p := DeriveProject(GitHubPrefix + user + "/" + repo + "/" + rest, name, short, long);
      p.userName == user && p.repoName == repo && p.url == GitHubPrefix + user + "/" + repo
  {
    var path := user + "/" + repo + "/" + rest;
    var originURL := GitHubPrefix + user + "/" + repo + "/" + rest;
    assert originURL == GitHubPrefix + path;
    PrefixTrimmed(path);
    LeadingSegments(user, repo, rest);
    DeriveFromSegments(originURL, user, repo, name, short, long);
  }

  /** The derived user, repository and URL depend only on the first two segments. */
  lemma DeriveFromSegments(originURL: string, user: string, repo: string, name: string, short: string, long: string)
    requires |ProjectParts(originURL)| >= 2
    requires ProjectParts(originURL)[0] == user && ProjectParts(originURL)[1] == repo
    ensures var p := DeriveProject(originURL, name, short, long);
      p.userName == user && p.repoName == repo && p.url == GitHubPrefix + user + "/" + repo
  {
    var p := DeriveProject(originURL, name, short, long);
    assert p.url == GitHubPrefix + (user + "/" + repo);
  }

  /** The GitHub prefix comes off a URL that starts with it. */
  lemma PrefixTrimmed(path: string)
    ensures TrimPrefix(GitHubPrefix + path, GitHubPrefix) == path
  {
    assert HasPrefix(GitHubPrefix + path, GitHubPrefix);
  }

  /** The first two segments of a path are the text before its first slash
      and the text between its first and second slash. */
  lemma LeadingSegments(user: string, repo: string, rest: string)
    requires '/' !in user && '/' !in repo
    ensures Split(user + "/" + repo + "/" + rest, "/") == [user, repo] + Split(rest, "/")
  {
    SplitTwoLeading(user, repo, rest, '/');
  }

  // ---------------------------------------------------------------------
  // Template files
  // ---------------------------------------------------------------------

  const TemplateMarker: string := ".template"

  /** The file a template is rendered into: its path with every ".template" removed. */
  function TemplateOutputPath(path: string): string {
    ReplaceAll(path, TemplateMarker, "")
  }

  /** `docs/index.template.md` is rendered into `docs/index.md`: the marker
      between a stem and an extension that do not contain it is dropped. */
  lemma TemplateOutputDropsMarker(stem: string, ext: string)
    requires !Contains(stem, TemplateMarker) && !Contains(ext, TemplateMarker)
    ensures TemplateOutputPath(stem + TemplateMarker + ext) == stem + ext
  {
    var s := stem + TemplateMarker + ext;
    var m := TemplateMarker;
    assert s[|stem|..|stem| + |m|] == m;
    forall j | 0 <= j < |stem|
      ensures !OccursAt(s, m, j)
    {
      if j + |m| <= |stem| {
        assert s[j..j + |m|] == stem[j..j + |m|];
        assert !OccursAt(stem, m, j);
      } else {
        assert s[j..j + |m|][|stem| - j] == s[|stem|] == '.';
        assert m[|stem| - j] != '.';
      }
    }
    IndexIsFirst(s, m, |stem|);
    assert s[..|stem|] == stem;
    assert s[|stem| + |m|..] == ext;
    assert Split(s, m) == [stem] + Split(ext, m);
    assert Split(ext, m) == [ext];
    assert Join([stem, ext], "") == stem + ext;
  }

  // ---------------------------------------------------------------------
  // `walkOverExt`
  // ---------------------------------------------------------------------

  /** The extensions the CI command renders. */
  const MdTemplate: string := ".template.md"
  const HtmlTemplate: string := ".template.html"
  const JsTemplate: string := ".template.js"
  const CssTemplate: string := ".template.css"
  const CiExtensions: string := MdTemplate + "," + HtmlTemplate + "," + JsTemplate + "," + CssTemplate
  const CiExtensionList: seq<string> := [MdTemplate, HtmlTemplate, JsTemplate, CssTemplate]

  /** One callback for each extension the path ends with, in the order of the list. */
  function ExtCalls(path: string, exts: seq<string>): (r: seq<string>)
    ensures |r| <= |exts|
    ensures forall k :: 0 <= k < |r| ==> r[k] == path
    decreases |exts|
  {
    if exts == [] then []
    else ExtCalls(path, exts[..|exts| - 1]) + (if HasSuffix(path, exts[|exts| - 1]) then [path] else [])
  }

  /** The callbacks for the walked paths, in walk order. */
  function WalkCalls(paths: seq<string>, exts: seq<string>): seq<string>
    decreases |paths|
  {
    if paths == [] then []
    else WalkCalls(paths[..|paths| - 1], exts) + ExtCalls(paths[|paths| - 1], exts)
  }

  /** The inner loop: test the path against each extension. */
  method MatchExtensions(path: string, exts: seq<string>) returns (calls: seq<string>)
    ensures calls == ExtCalls(path, exts)
  {
    calls := [];
    var k := 0;
    while k < |exts|
      invariant 0 <= k <= |exts|
      invariant calls == ExtCalls(path, exts[..k])
    {
      assert exts[..k + 1][..k] == exts[..k];
      if HasSuffix(path, exts[k]) {
        calls := calls + [path];
      }
      k := k + 1;
    }
    assert exts[..|exts|] == exts;
  }

  /** `walkOverExt`: the paths the walk visits are an input; the callback is
      recorded as the list of paths it is called with. */
  method WalkOverExt(paths: seq<string>, exts: string) returns (calls: seq<string>)
    ensures calls == WalkCalls(paths, Split(exts, ","))
  {
    var extList := Split(exts, ",");
    calls := [];
    var i := 0;
    while i < |paths|
      invariant 0 <= i <= |paths|
      invariant calls == WalkCalls(paths[..i], extList)
    {
      assert paths[..i + 1][..i] == paths[..i];
      var matched := MatchExtensions(paths[i], extList);
      calls := calls + matched;
      i := i + 1;
    }
    assert paths[..|paths|] == paths;
  }

  /** A path is passed to the callback exactly when it ends with one of the
      extensions. */
  lemma {:induction false} ExtCallsNone(path: string, exts: seq<string>)
    ensures ExtCalls(path, exts) == [] <==> forall k :: 0 <= k < |exts| ==> !HasSuffix(path, exts[k])
    decreases |exts|
  {
    if exts != [] {
      var init := exts[..|exts| - 1];
      ExtCallsNone(path, init);
      assert forall k :: 0 <= k < |init| ==> init[k] == exts[k];
    }
  }

  /** Four pieces joined by a character none of them contains split back into the four. */
  lemma SplitFour(a: string, b: string, c: string, d: string, sep: char)
    requires sep !in a && sep !in b && sep !in c && sep !in d
    ensures Split(a + [sep] + b + [sep] + c + [sep] + d, [sep]) == [a, b, c, d]
  {
    var cd := c + [sep] + d;
    var bcd := b + [sep] + cd;
    assert a + [sep] + b + [sep] + c + [sep] + d == a + [sep] + bcd;
    IndexCharAbsent(d, sep);
    assert Split(d, [sep]) == [d];
    SplitAfterChar(c, sep, d);
    assert Split(cd, [sep]) == [c, d];
    SplitAfterChar(b, sep, cd);
    assert Split(bcd, [sep]) == [b, c, d];
    SplitAfterChar(a, sep, bcd);
  }

  /** The CI list splits into its four extensions. */
  lemma CiExtensionsSplit()
    ensures Split(CiExtensions, ",") == CiExtensionList
  {
    SplitFour(MdTemplate, HtmlTemplate, JsTemplate, CssTemplate, ',');
  }

  /** A path ends with the last `m` characters of every extension it has. */
  lemma SuffixEnds(path: string, ext: string, m: nat)
    requires m <= |ext|
    ensures HasSuffix(path, ext) ==> m <= |path| && path[|path| - m..] == ext[|ext| - m..]
  {
    if HasSuffix(path, ext) {
      assert path[|path| - m..] == path[|path| - |ext|..][|ext| - m..];
    }
  }

  /** When no path ends with two of the extensions, the callback runs at most
      once per path. */
  lemma {:induction false} ExtCallsAtMostOne(path: string, exts: seq<string>)
    requires forall i, j :: 0 <= i < j < |exts| ==> !(HasSuffix(path, exts[i]) && HasSuffix(path, exts[j]))
    ensures |ExtCalls(path, exts)| <= 1
    decreases |exts|
  {
    if exts != [] {
      var init := exts[..|exts| - 1];
      assert forall k :: 0 <= k < |init| ==> init[k] == exts[k];
      if HasSuffix(path, exts[|exts| - 1]) {
        ExtCallsNone(path, init);
      } else {
        ExtCallsAtMostOne(path, init);
      }
    }
  }

  /** The last three characters of the CI extensions are pairwise different. */
  const CiEndings: seq<string> := [".md", "tml", ".js", "css"]

  lemma CiEndingsOfExtensions()
    ensures |CiEndings| == |CiExtensionList|
    ensures forall k :: 0 <= k < |CiExtensionList| ==>
      3 <= |CiExtensionList[k]| && CiExtensionList[k][|CiExtensionList[k]| - 3..] == CiEndings[k]
  {
  }

  /** No path ends with two of the CI extensions, so each template is
      rendered at most once. */
  lemma CiRendersOnce(path: string)
    ensures |ExtCalls(path, CiExtensionList)| <= 1
  {
    var e := CiExtensionList;
    CiEndingsOfExtensions();
    forall i, j | 0 <= i < j < |e|
      ensures !(HasSuffix(path, e[i]) && HasSuffix(path, e[j]))
    {
      SuffixEnds(path, e[i], 3);
      SuffixEnds(path, e[j], 3);
      assert CiEndings[i] != CiEndings[j];
    }
    ExtCallsAtMostOne(path, e);
  }
}
