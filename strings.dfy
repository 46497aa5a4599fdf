/** The part of Go's `strings` package that the help renderer relies on.
    Strings are sequences of Unicode scalar values; where the library reads a
    string's byte length, `Utf8Len` gives it. Every separator the library passes is non-empty,
    so the helpers that take one require it. */
module GoStrings {

  datatype Option<T> = None | Some(value: T)

  /** The characters `unicode.IsSpace` accepts, which is what `strings.TrimSpace` cuts. */
  const Whitespace: set<char> := {
    ' ', '\t', '\n', '\r', '\U{000B}', '\U{000C}', '\U{0085}', '\U{00A0}', '\U{1680}',
    '\U{2000}', '\U{2001}', '\U{2002}', '\U{2003}', '\U{2004}', '\U{2005}', '\U{2006}',
    '\U{2007}', '\U{2008}', '\U{2009}', '\U{200A}', '\U{2028}', '\U{2029}', '\U{202F}',
    '\U{205F}', '\U{3000}'
  }

  /** The characters of a Go cutset string. */
  function CharSet(cutset: string): set<char> {
    set c | c in cutset
  }

  /** The number of bytes in the UTF-8 encoding of a character. */
  function Utf8Width(c: char): nat {
    if c as int < 0x80 then 1
    else if c as int < 0x800 then 2
    else if c as int < 0x10000 then 3
    else 4
  }

  /** Go's `len` of a string: the number of bytes of its UTF-8 encoding. Each
      character takes one to four bytes, and the byte count equals the
      character count exactly when the string is ASCII. */
  function Utf8Len(s: string): (n: nat)
    ensures |s| <= n <= 4 * |s|
    ensures n == |s| <==> forall i :: 0 <= i < |s| ==> s[i] as int < 0x80
  {
    if s == [] then 0
    else
      assert forall i :: 1 <= i < |s| ==> s[1..][i - 1] == s[i];
      Utf8Width(s[0]) + Utf8Len(s[1..])
  }

  /** `strings.TrimLeft`: drops the longest prefix made only of characters of `cut`. */
  function TrimLeftSet(s: string, cut: set<char>): string
    decreases |s|
  {
    if s != [] && s[0] in cut then TrimLeftSet(s[1..], cut) else s
  }

  /** `TrimLeft` keeps a suffix of its input, every character it drops is in
      the cutset and the first character it keeps is not. */
  lemma {:induction false} TrimLeftSetFacts(s: string, cut: set<char>)
    ensures var r := TrimLeftSet(s, cut);
      |r| <= |s| && r == s[|s| - |r|..] &&
      (forall i :: 0 <= i < |s| - |r| ==> s[i] in cut) &&
      (r != [] ==> r[0] !in cut)
    decreases |s|
  {
    if s != [] && s[0] in cut {
      TrimLeftSetFacts(s[1..], cut);
    }
  }

  /** `strings.TrimRight`: drops the longest suffix made only of characters of `cut`. */
  function TrimRightSet(s: string, cut: set<char>): string
    decreases |s|
  {
    if s != [] && s[|s| - 1] in cut then TrimRightSet(s[..|s| - 1], cut) else s
  }

  /** `TrimRight` keeps a prefix of its input, every character it drops is in
      the cutset and the last character it keeps is not. */
  lemma {:induction false} TrimRightSetFacts(s: string, cut: set<char>)
    ensures var r := TrimRightSet(s, cut);
      |r| <= |s| && r == s[..|r|] &&
      (forall i :: |r| <= i < |s| ==> s[i] in cut) &&
      (r != [] ==> r[|r| - 1] !in cut)
    decreases |s|
  {
    if s != [] && s[|s| - 1] in cut {
      TrimRightSetFacts(s[..|s| - 1], cut);
    }
  }

  /** `strings.TrimSpace`. */
  function TrimSpace(s: string): string {
    TrimRightSet(TrimLeftSet(s, Whitespace), Whitespace)
  }

  /** The trimmed string is a piece of the input that neither starts nor ends
      with whitespace. */
  lemma TrimSpaceFacts(s: string)
    ensures |TrimSpace(s)| <= |s|
    ensures TrimSpace(s) != [] ==> TrimSpace(s)[0] !in Whitespace && TrimSpace(s)[|TrimSpace(s)| - 1] !in Whitespace
  {
    var l := TrimLeftSet(s, Whitespace);
    TrimLeftSetFacts(s, Whitespace);
    TrimRightSetFacts(l, Whitespace);
    var r := TrimSpace(s);
    if r != [] {
      assert r[0] == l[0];
    }
  }

  /** A string that neither starts nor ends with whitespace is its own trim. */
  lemma TrimSpaceKeeps(s: string)
    requires s != [] ==> s[0] !in Whitespace && s[|s| - 1] !in Whitespace
    ensures TrimSpace(s) == s
  {
  }

  /** A string that does not start with a cut character is not trimmed on the left. */
  lemma TrimLeftSetStops(s: string, cut: set<char>)
    requires s != [] ==> s[0] !in cut
    ensures TrimLeftSet(s, cut) == s
  {
  }

  /** Trimming on the left removes a leading run of cut characters up to the
      first character that is kept. */
  lemma {:induction false} TrimLeftSetDrops(run: string, rest: string, cut: set<char>)
    requires forall i :: 0 <= i < |run| ==> run[i] in cut
    requires rest != [] ==> rest[0] !in cut
    ensures TrimLeftSet(run + rest, cut) == rest
    decreases |run|
  {
    if run != [] {
      assert (run + rest)[1..] == run[1..] + rest;
      TrimLeftSetDrops(run[1..], rest, cut);
    } else {
      assert run + rest == rest;
    }
  }

  /** Trimming on the right removes a trailing run of cut characters back to
      the last character that is kept. */
  lemma {:induction false} TrimRightSetDrops(rest: string, run: string, cut: set<char>)
    requires forall i :: 0 <= i < |run| ==> run[i] in cut
    requires rest != [] ==> rest[|rest| - 1] !in cut
    ensures TrimRightSet(rest + run, cut) == rest
    decreases |run|
  {
    if run != [] {
      var init := run[..|run| - 1];
      assert (rest + run)[..|rest + run| - 1] == rest + init;
      assert (rest + run)[|rest + run| - 1] == run[|run| - 1];
      TrimRightSetDrops(rest, init, cut);
    } else {
      assert rest + run == rest;
    }
  }

  /** Trimming on the right never eats into a prefix whose last character is kept. */
  lemma {:induction false} TrimRightSetKeepsPrefix(s: string, cut: set<char>, prefix: string)
    requires HasPrefix(s, prefix) && prefix != [] && prefix[|prefix| - 1] !in cut
    ensures HasPrefix(TrimRightSet(s, cut), prefix)
    decreases |s|
  {
    assert s[|prefix| - 1] == prefix[|prefix| - 1];
    if s[|s| - 1] in cut {
      assert |prefix| < |s|;
      assert prefix <= s[..|s| - 1];
      TrimRightSetKeepsPrefix(s[..|s| - 1], cut, prefix);
    }
  }

  /** `TrimSpace` keeps a prefix that starts and ends with non-whitespace. */
  lemma TrimSpaceKeepsPrefix(s: string, prefix: string)
    requires HasPrefix(s, prefix) && prefix != []
    requires prefix[0] !in Whitespace && prefix[|prefix| - 1] !in Whitespace
    ensures HasPrefix(TrimSpace(s), prefix)
  {
    assert s[0] == prefix[0];
    TrimLeftSetStops(s, Whitespace);
    TrimRightSetKeepsPrefix(s, Whitespace, prefix);
  }

  predicate HasPrefix(s: string, prefix: string) {
    prefix <= s
  }

  predicate HasSuffix(s: string, suffix: string) {
    |suffix| <= |s| && s[|s| - |suffix|..] == suffix
  }

  /** `strings.TrimPrefix`. */
  function TrimPrefix(s: string, prefix: string): (r: string)
    ensures HasPrefix(s, prefix) ==> s == prefix + r
    ensures !HasPrefix(s, prefix) ==> r == s
  {
    if HasPrefix(s, prefix) then s[|prefix|..] else s
  }

  /** `sep` occurs in `s` starting at position `i`. */
  predicate OccursAt(s: string, sep: string, i: nat) {
    i + |sep| <= |s| && s[i..i + |sep|] == sep
  }

  /** The first occurrence of `sep` in `s` at or after position `k`. */
  function IndexFrom(s: string, sep: string, k: nat): (r: Option<nat>)
    decreases |s| - k
    ensures r.Some? ==> k <= r.value && OccursAt(s, sep, r.value)
    ensures r.Some? ==> forall j :: k <= j < r.value ==> !OccursAt(s, sep, j)
    ensures r.None? ==> forall j :: k <= j ==> !OccursAt(s, sep, j)
  {
    if k + |sep| > |s| then None
    else if OccursAt(s, sep, k) then Some(k)
    else IndexFrom(s, sep, k + 1)
  }

  /** `strings.Index`, with `None` for Go's -1. */
  function Index(s: string, sep: string): Option<nat> {
    IndexFrom(s, sep, 0)
  }

  /** `strings.Contains`: Go defines it as `Index(s, substr) >= 0`. */
  predicate Contains(s: string, sub: string) {
    Index(s, sub).Some?
  }

  /** An occurrence with none before it is the one `Index` reports. */
  lemma IndexIsFirst(s: string, sep: string, i: nat)
    requires OccursAt(s, sep, i)
    requires forall j :: 0 <= j < i ==> !OccursAt(s, sep, j)
    ensures Index(s, sep) == Some(i)
  {
  }

  /** A string contains every string written inside it. */
  lemma ContainsInfix(a: string, x: string, b: string)
    ensures Contains(a + x + b, x)
  {
    var s := a + x + b;
    assert s[|a|..|a| + |x|] == x;
    assert OccursAt(s, x, |a|);
  }

  /** What a string contains, any extension of it contains too. */
  lemma ContainsExtend(a: string, x: string, b: string)
    requires Contains(a, x)
    ensures Contains(a + b, x)
  {
    var i := Index(a, x).value;
    assert (a + b)[i..i + |x|] == a[i..i + |x|];
    assert OccursAt(a + b, x, i);
  }

  /** `strings.Split` for a non-empty separator: the pieces between successive
      non-overlapping occurrences, scanning left to right. */
  function Split(s: string, sep: string): (parts: seq<string>)
    requires sep != []
    ensures |parts| >= 1
    decreases |s|
  {
    match Index(s, sep)
    case None => [s]
    case Some(i) => [s[..i]] + Split(s[i + |sep|..], sep)
  }

  /** `strings.Join`. */
  function Join(parts: seq<string>, sep: string): string {
    if |parts| == 0 then ""
    else if |parts| == 1 then parts[0]
    else parts[0] + sep + Join(parts[1..], sep)
  }

  /** `strings.ReplaceAll` for a non-empty `target`: every occurrence found by the
      left-to-right scan of `Split` is replaced. */
  function ReplaceAll(s: string, target: string, replacement: string): string
    requires target != []
  {
    Join(Split(s, target), replacement)
  }

  /** Joining the pieces of a split with the same separator gives back the input. */
  lemma {:induction false} JoinSplit(s: string, sep: string)
    requires sep != []
    ensures Join(Split(s, sep), sep) == s
    decreases |s|
  {
    match Index(s, sep)
    case None =>
    case Some(i) =>
      var rest := s[i + |sep|..];
      var parts := Split(rest, sep);
      JoinSplit(rest, sep);
      assert Split(s, sep) == [s[..i]] + parts;
      assert ([s[..i]] + parts)[1..] == parts;
      assert Join([s[..i]] + parts, sep) == s[..i] + sep + Join(parts, sep);
      assert s == s[..i] + sep + rest;
  }

  /** The first piece of a split is the text before the first separator, and
      the other pieces joined back are the text after it. */
  lemma SplitAtFirst(s: string, sep: string)
    requires sep != []
    ensures Index(s, sep).None? ==> Split(s, sep) == [s]
    ensures Index(s, sep).Some? ==>
      var i := Index(s, sep).value;
      Split(s, sep)[0] == s[..i] && Join(Split(s, sep)[1..], sep) == s[i + |sep|..]
  {
    if Index(s, sep).Some? {
      var i := Index(s, sep).value;
      JoinSplit(s[i + |sep|..], sep);
      assert Split(s, sep)[1..] == Split(s[i + |sep|..], sep);
    }
  }

  /** No piece of a split contains the separator. */
  lemma {:induction false} SplitPiecesAvoidSeparator(s: string, sep: string)
    requires sep != []
    ensures forall k :: 0 <= k < |Split(s, sep)| ==> !Contains(Split(s, sep)[k], sep)
    decreases |s|
  {
    match Index(s, sep)
    case None =>
    case Some(i) =>
      var rest := s[i + |sep|..];
      SplitPiecesAvoidSeparator(rest, sep);
      var head := s[..i];
      if Contains(head, sep) {
        var j := Index(head, sep).value;
        assert OccursAt(head, sep, j);
        assert j + |sep| <= i;
        forall t | 0 <= t < |sep|
          ensures s[j..j + |sep|][t] == sep[t]
        {
          assert head[j..j + |sep|][t] == sep[t];
          assert head[j + t] == s[j + t];
        }
        assert s[j..j + |sep|] == sep;
        assert OccursAt(s, sep, j);
        assert false;
      }
      assert Split(s, sep) == [head] + Split(rest, sep);
  }

  /** A one-character separator occurs exactly where that character stands. */
  lemma OccursAtChar(s: string, c: char, j: nat)
    ensures OccursAt(s, [c], j) <==> j < |s| && s[j] == c
  {
    if j < |s| {
      assert s[j..j + 1] == [s[j]];
    }
  }

  /** A string without the character `c` has no occurrence of `[c]`. */
  lemma IndexCharAbsent(s: string, c: char)
    requires c !in s
    ensures Index(s, [c]) == None
  {
    forall j | 0 <= j
      ensures !OccursAt(s, [c], j)
    {
      OccursAtChar(s, c, j);
    }
  }

  /** In `a + [c] + b` with no `c` in `a`, the first `c` is the one after `a`. */
  lemma IndexCharAfter(a: string, c: char, b: string)
    requires c !in a
    ensures Index(a + [c] + b, [c]) == Some(|a|)
  {
    var s := a + [c] + b;
    OccursAtChar(s, c, |a|);
    forall j | 0 <= j < |a|
      ensures !OccursAt(s, [c], j)
    {
      OccursAtChar(s, c, j);
      assert s[j] == a[j];
    }
    IndexIsFirst(s, [c], |a|);
  }

  /** The first piece of a split on `c` is the text before the first `c`. */
  lemma SplitAfterChar(a: string, c: char, rest: string)
    requires c !in a
    ensures Split(a + [c] + rest, [c]) == [a] + Split(rest, [c])
  {
    var s := a + [c] + rest;
    IndexCharAfter(a, c, rest);
    assert s[..|a|] == a;
    assert s[|a| + 1..] == rest;
  }

  /** Two separator-free pieces in front come out as the first two parts. */
  lemma SplitTwoLeading(a: string, b: string, rest: string, c: char)
    requires c !in a && c !in b
    ensures Split(a + [c] + b + [c] + rest, [c]) == [a, b] + Split(rest, [c])
  {
    var tail := b + [c] + rest;
    SplitAfterChar(b, c, rest);
    SplitAfterChar(a, c, tail);
    assert a + [c] + b + [c] + rest == a + [c] + tail;
    assert Split(a + [c] + tail, [c]) == [a] + ([b] + Split(rest, [c]));
  }

  /** Splitting on a one-character separator undoes joining pieces that do not contain it. */
  lemma {:induction false} SplitJoinChar(parts: seq<string>, c: char)
    requires |parts| >= 1
    requires forall k :: 0 <= k < |parts| ==> c !in parts[k]
    ensures Split(Join(parts, [c]), [c]) == parts
    decreases |parts|
  {
    if |parts| == 1 {
      IndexCharAbsent(parts[0], c);
    } else {
      var rest := Join(parts[1..], [c]);
      SplitJoinChar(parts[1..], c);
      var s := parts[0] + [c] + rest;
      assert Join(parts, [c]) == s;
      IndexCharAfter(parts[0], c, rest);
      assert s[..|parts[0]|] == parts[0];
      assert s[|parts[0]| + 1..] == rest;
      assert parts == [parts[0]] + parts[1..];
    }
  }

  /** Splitting on a one-character separator gives one piece more than there are
      occurrences of that character. */
  lemma {:induction false} SplitCharCount(s: string, c: char)
    ensures |Split(s, [c])| == multiset(s)[c] + 1
    decreases |s|
  {
    match Index(s, [c])
    case None =>
      forall j | 0 <= j < |s|
        ensures s[j] != c
      {
        OccursAtChar(s, c, j);
      }
    case Some(i) =>
      var rest := s[i + 1..];
      SplitCharCount(rest, c);
      forall j | 0 <= j < i
        ensures s[..i][j] != c
      {
        OccursAtChar(s, c, j);
      }
      OccursAtChar(s, c, i);
      assert s == s[..i] + [c] + rest;
      assert multiset(s) == multiset(s[..i]) + multiset([c]) + multiset(rest);
  }

  /** The string with every `c` replaced by `d`, one character at a time. */
  function MapChar(s: string, c: char, d: char): (r: string)
    ensures |r| == |s|
    ensures forall i :: 0 <= i < |s| ==> r[i] == if s[i] == c then d else s[i]
  {
    if s == [] then [] else [if s[0] == c then d else s[0]] + MapChar(s[1..], c, d)
  }

  /** Replacing a one-character string by another changes exactly those characters. */
  lemma {:induction false} ReplaceAllChar(s: string, c: char, d: char)
    ensures ReplaceAll(s, [c], [d]) == MapChar(s, c, d)
    decreases |s|
  {
    match Index(s, [c])
    case None =>
      forall j | 0 <= j < |s|
        ensures s[j] != c
      {
        OccursAtChar(s, c, j);
      }
      assert MapChar(s, c, d) == s;
    case Some(i) =>
      var rest := s[i + 1..];
      ReplaceAllChar(rest, c, d);
      assert Split(s, [c]) == [s[..i]] + Split(rest, [c]);
      assert ReplaceAll(s, [c], [d]) == s[..i] + [d] + ReplaceAll(rest, [c], [d]);
      forall j | 0 <= j < i
        ensures s[j] != c
      {
        OccursAtChar(s, c, j);
      }
      OccursAtChar(s, c, i);
      assert MapChar(s, c, d) == s[..i] + [d] + MapChar(rest, c, d);
  }
}
