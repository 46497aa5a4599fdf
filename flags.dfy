/** pflag's usage block turned into the rows of the two-column flag table.
    The same loop appears three times in the library (the pcli flags template,
    the Markdown walk and the cobra adapter's flags template); it is modelled
    once here. */
module FlagTable {
  import opened GoStrings
  import opened Render

  /** The column separator the library splits on: three spaces. */
  const Separator: string := "   "

  /** What the renderer reads from a pflag FlagSet: `HasFlags()` and `FlagUsages()`. */
  datatype FlagSet = FlagSet(hasFlags: bool, usages: string)

  /** One trimmed usage line split on the separator: the first piece, and the
      other pieces joined back and trimmed. */
  function FlagLine(line: string): (string, string) {
    var parts := Split(line, Separator);
    (parts[0], TrimSpace(Join(parts[1..], Separator)))
  }

  /** The spec is the text before the first separator, the usage the trimmed
      text after it, and a line without a separator has an empty usage. */
  lemma FlagLineSplitsAtFirst(line: string)
    ensures Index(line, Separator).None? ==> FlagLine(line) == (line, "")
    ensures Index(line, Separator).Some? ==>
      var i := Index(line, Separator).value;
      FlagLine(line) == (line[..i], TrimSpace(line[i + |Separator|..]))
  {
    SplitAtFirst(line, Separator);
  }

  /** The flag spec never contains the separator, and the usage is trimmed. */
  lemma FlagLineColumns(line: string)
    ensures !Contains(FlagLine(line).0, Separator)
    ensures FlagLine(line).1 == TrimSpace(FlagLine(line).1)
  {
    SplitPiecesAvoidSeparator(line, Separator);
    var u := FlagLine(line).1;
    TrimSpaceFacts(Join(Split(line, Separator)[1..], Separator));
    if u != [] {
      TrimSpaceKeeps(u);
    }
  }

  /** Laying out a spec and a usage with three (or more) spaces between them
      and splitting the line again gives back the spec and the trimmed usage,
      provided the spec has no run of three spaces and does not end in one. */
  lemma ColumnsRoundTrip(spec: string, usage: string)
    requires !Contains(spec, Separator)
    requires spec != [] ==> spec[|spec| - 1] != ' '
    ensures FlagLine(spec + Separator + usage) == (spec, TrimSpace(usage))
  {
    var line := spec + Separator + usage;
    assert line[|spec|..|spec| + 3] == Separator;
    forall j | 0 <= j < |spec|
      ensures !OccursAt(line, Separator, j)
    {
      if j + 3 <= |spec| {
        assert line[j..j + 3] == spec[j..j + 3];
        assert !OccursAt(spec, Separator, j);
      } else {
        assert line[|spec| - 1] == spec[|spec| - 1];
        assert line[j..j + 3][|spec| - 1 - j] == line[|spec| - 1];
      }
    }
    IndexIsFirst(line, Separator, |spec|);
    FlagLineSplitsAtFirst(line);
    assert line[..|spec|] == spec;
    assert line[|spec| + 3..] == usage;
  }

  /** The lines of FlagUsages(): the trimmed block split at newlines. */
  function UsageLines(usages: string): seq<string> {
    Split(TrimSpace(usages), "\n")
  }

  /** A table row from the two columns of one line. */
  function ColumnsRow(columns: (string, string)): Row {
    Row(Plain(columns.0), Plain(columns.1))
  }

  /** One row per line, each line trimmed and split. */
  function LineRows(lines: seq<string>): seq<Row> {
    seq(|lines|, k requires 0 <= k < |lines| => ColumnsRow(FlagLine(TrimSpace(lines[k]))))
  }

  /** The flag table of a usage block. */
  function FlagRows(usages: string): seq<Row> {
    LineRows(UsageLines(usages))
  }

  /** The body of the loop: trim the line, split it on the separator, keep
      the first piece as the spec and the trimmed rest as the usage. */
  method SplitUsageLine(rawLine: string) returns (row: Row)
    ensures row == ColumnsRow(FlagLine(TrimSpace(rawLine)))
  {
    var line := TrimSpace(rawLine);
    var parts := Split(line, Separator);
    var flagString := parts[0];
    var flagUsage := TrimSpace(Join(parts[1..], Separator));
    row := Row(Plain(flagString), Plain(flagUsage));
  }

  /** The loop that fills `flagTableData`. */
  method BuildFlagRows(usages: string) returns (rows: seq<Row>)
    ensures rows == FlagRows(usages)
  {
    var lines := UsageLines(usages);
    ghost var table := LineRows(lines);
    rows := [];
    var k := 0;
    while k < |lines|
      invariant 0 <= k <= |lines|
      invariant rows == table[..k]
    {
      var row := SplitUsageLine(lines[k]);
      assert table[k] == row;
      assert table[..k + 1] == table[..k] + [table[k]];
      rows := rows + [row];
      k := k + 1;
    }
    assert table[..|lines|] == table;
  }

  /** A line whose only spaces are single ones has no column separator. */
  lemma SingleSpaceHasNoSeparator(a: string, b: string)
    requires ' ' !in a && ' ' !in b
    ensures !Contains(a + " " + b, Separator)
  {
    var s := a + " " + b;
    forall j | 0 <= j
      ensures !OccursAt(s, Separator, j)
    {
      if j + 3 <= |s| {
        assert s[j..j + 3][0] == s[j] && s[j..j + 3][1] == s[j + 1];
        if j < |a| {
          assert s[j] == a[j];
        } else if j == |a| {
          assert s[j + 1] == b[0];
        } else {
          assert s[j] == b[j - |a| - 1];
        }
      }
    }
  }

  /** pflag's usual line shape, `-v, --verbose   Enable verbose output`: the
      names separated by single spaces form the spec, whatever follows the run
      of spaces is the usage. */
  lemma {:induction false} NamesThenUsage(names: string, more: string, usage: string)
    requires ' ' !in names && ' ' !in more && more != []
    ensures FlagLine(names + " " + more + Separator + usage) == (names + " " + more, TrimSpace(usage))
  {
    var spec := names + " " + more;
    SingleSpaceHasNoSeparator(names, more);
    assert spec[|spec| - 1] == more[|more| - 1];
    ColumnsRoundTrip(spec, usage);
  }

  /** A usage text that starts and ends with a visible character is kept as it is. */
  lemma NamesThenPlainUsage(names: string, more: string, usage: string)
    requires ' ' !in names && ' ' !in more && more != []
    requires usage != [] && usage[0] !in Whitespace && usage[|usage| - 1] !in Whitespace
    ensures FlagLine(names + " " + more + Separator + usage) == (names + " " + more, usage)
  {
    NamesThenUsage(names, more, usage);
    TrimSpaceKeeps(usage);
  }

  /** The usual pflag line for a verbose switch, and its two columns. */
  const VerboseUsage: string := "Enable verbose output"

  lemma VerboseLine()
    ensures FlagLine("-v," + " " + "--verbose" + Separator + VerboseUsage) == ("-v, --verbose", VerboseUsage)
  {
    assert VerboseUsage[0] == 'E' && VerboseUsage[|VerboseUsage| - 1] == 't';
    assert "-v," + " " + "--verbose" == "-v, --verbose";
    NamesThenPlainUsage("-v,", "--verbose", VerboseUsage);
  }
}
