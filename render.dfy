/** Rendered help output as a sequence of fragments. The styling library's calls
    stay symbolic: a header printed by `HelpSectionPrinter`, a table rendered
    from its rows, a coloured string, a wrapped paragraph, a title and an error
    line are constructors, not the terminal text they turn into. Concatenating
    fragment sequences is the source's `ret += ...`. */
module Render {

  datatype Color = Gray | Magenta | LightMagenta

  /** One table cell: the text as given, or wrapped in a colour call. */
  datatype Cell = Plain(text: string) | Tinted(color: Color, text: string)

  /** Every table the library builds has two columns. */
  datatype Row = Row(left: Cell, right: Cell)

  datatype Fragment =
    | Text(text: string)                   // text written as it is
    | Colored(color: Color, text: string)  // pterm.Gray, pterm.Magenta, pterm.LightMagenta
    | Section(title: string)               // HelpSectionPrinter(title)
    | Table(rows: seq<Row>)                // pterm.DefaultTable.WithData(rows).Srender()
    | Paragraph(text: string)              // pterm.DefaultParagraph.Sprintln(text)
    | Title(name: string, version: string) // GenerateTitleString(name, version)
    | ErrorLine(message: string)           // pterm.Error.WithShowLineNumber(false).Sprintln(err)

  /** The titles of the section headers in `out`, in the order they are printed. */
  function SectionTitles(out: seq<Fragment>): seq<string> {
    if out == [] then []
    else (if out[0].Section? then [out[0].title] else []) + SectionTitles(out[1..])
  }

  /** The section headers of a concatenation are those of its parts, in order. */
  lemma {:induction false} SectionTitlesAppend(a: seq<Fragment>, b: seq<Fragment>)
    ensures SectionTitles(a + b) == SectionTitles(a) + SectionTitles(b)
    decreases |a|
  {
    if a == [] {
      assert a + b == b;
    } else {
      assert (a + b)[0] == a[0];
      assert (a + b)[1..] == a[1..] + b;
      SectionTitlesAppend(a[1..], b);
    }
  }

  /** The headers of six consecutive pieces of output. */
  lemma SectionTitlesAppend6(a: seq<Fragment>, b: seq<Fragment>, c: seq<Fragment>,
                             d: seq<Fragment>, e: seq<Fragment>, f: seq<Fragment>)
    ensures SectionTitles(a + b + c + d + e + f)
         == SectionTitles(a) + SectionTitles(b) + SectionTitles(c) + SectionTitles(d) + SectionTitles(e) + SectionTitles(f)
  {
    SectionTitlesAppend(a, b);
    SectionTitlesAppend(a + b, c);
    SectionTitlesAppend(a + b + c, d);
    SectionTitlesAppend(a + b + c + d, e);
    SectionTitlesAppend(a + b + c + d + e, f);
  }

  /** A page that opens with its title has the headers of what follows it. */
  lemma TitleFirst(name: string, version: string, rest: seq<Fragment>)
    ensures SectionTitles([Title(name, version)] + rest) == SectionTitles(rest)
  {
    assert ([Title(name, version)] + rest)[1..] == rest;
  }

  /** `[title]` when `present` holds, nothing otherwise. */
  function Opt(present: bool, title: string): seq<string> {
    if present then [title] else []
  }

  /** The "Usage" header with the short description that the cobra, pcli and
      urfave adapters print before their usage line; nothing for an empty text. */
  function UsageHeader(short: string): (r: seq<Fragment>)
    ensures SectionTitles(r) == Opt(short != "", "Usage")
    ensures short == "" <==> r == []
  {
    if short != "" then
      var r := [Section("Usage"), Colored(Gray, ">"), Text(" "), Colored(Magenta, short), Text("\n"), Text("\n")];
      assert r == [r[0]] + r[1..];
      assert r[1..] == [r[1]] + r[2..];
      assert r[2..] == [r[2]] + r[3..];
      assert r[3..] == [r[3]] + r[4..];
      assert r[4..] == [r[4]] + r[5..];
      SectionTitlesAppend([r[0]], r[1..]);
      SectionTitlesAppend([r[1]], r[2..]);
      SectionTitlesAppend([r[2]], r[3..]);
      SectionTitlesAppend([r[3]], r[4..]);
      SectionTitlesAppend([r[4]], r[5..]);
      r
    else []
  }

  /** The "Description" section of the cobra and urfave adapters: a header and
      the wrapped paragraph, or nothing for an empty description. */
  function DescriptionSection(description: string): (r: seq<Fragment>)
    ensures SectionTitles(r) == Opt(description != "", "Description")
    ensures description == "" <==> r == []
  {
    if description != "" then
      var r := [Section("Description"), Paragraph(description)];
      assert r == [r[0]] + [r[1]];
      SectionTitlesAppend([r[0]], [r[1]]);
      r
    else []
  }

  /** `GenerateCopyrightString`: the grey copyright line, or nothing. */
  function CopyrightString(copyright: string): (r: seq<Fragment>)
    ensures SectionTitles(r) == []
    ensures copyright == "" <==> r == []
  {
    if copyright != "" then
      var r := [Colored(Gray, copyright), Text("\n")];
      assert r == [r[0]] + [r[1]];
      SectionTitlesAppend([r[0]], [r[1]]);
      r
    else []
  }

  /** A table section: its header, the table, and the text that follows it. */
  function TableSection(title: string, rows: seq<Row>, trailer: string): (r: seq<Fragment>)
    ensures SectionTitles(r) == [title]
  {
    var r := [Section(title), Table(rows), Text(trailer)];
    assert r == [r[0]] + [r[1]] + [r[2]];
    SectionTitlesAppend([r[0]] + [r[1]], [r[2]]);
    SectionTitlesAppend([r[0]], [r[1]]);
    r
  }

  /** A sequence made only of plain text has no section header. */
  lemma {:induction false} TextHasNoSections(out: seq<Fragment>)
    requires forall k :: 0 <= k < |out| ==> out[k].Text?
    ensures SectionTitles(out) == []
    decreases |out|
  {
    if out != [] {
      TextHasNoSections(out[1..]);
    }
  }

  /** Two fragments neither of which is a header. */
  lemma TextNoSections2(a: Fragment, b: Fragment)
    requires !a.Section? && !b.Section?
    ensures SectionTitles([a, b]) == []
  {
    SectionTitlesAppend([a], [b]);
    assert [a, b] == [a] + [b];
    assert [a][1..] == [] && [b][1..] == [];
  }

  /** The fragments of every element of `xs`, in order. */
  function ConcatMap<T>(xs: seq<T>, f: T -> seq<Fragment>): seq<Fragment>
    decreases |xs|
  {
    if xs == [] then [] else ConcatMap(xs[..|xs| - 1], f) + f(xs[|xs| - 1])
  }

  lemma ConcatMapSingle<T>(x: T, f: T -> seq<Fragment>)
    ensures ConcatMap([x], f) == f(x)
  {
    assert [x][..0] == [];
  }

  lemma {:induction false} ConcatMapAppend<T>(xs: seq<T>, ys: seq<T>, f: T -> seq<Fragment>)
    ensures ConcatMap(xs + ys, f) == ConcatMap(xs, f) + ConcatMap(ys, f)
    decreases |ys|
  {
    if ys == [] {
      assert xs + ys == xs;
    } else {
      var init := ys[..|ys| - 1];
      assert (xs + ys)[..|xs + ys| - 1] == xs + init;
      assert (xs + ys)[|xs + ys| - 1] == ys[|ys| - 1];
      ConcatMapAppend(xs, init, f);
    }
  }
}
