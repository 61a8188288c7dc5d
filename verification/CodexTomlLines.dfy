/** What the filters of the Codex editor leave behind, and how files and lines correspond. */
module CodexTomlLines {
  import opened Wrappers
  import opened Text
  import opened TomlText
  import opened CodexToml

  /** Blank lines mean nothing to the grammar, inside a multi-line string or out. */
  ghost predicate BlankIsInert(g: Grammar) {
    && !g.isTableHeader("") && !g.isRootModelProvider("") && g.open("") == None
    && (forall t :: !g.isProviderAssignment(t, ""))
    && (forall d :: g.close("", d) == Some(d))
  }

  // ---------- lines free of what the filters remove ----------

  /** No collectivus table header outside multi-line strings. */
  predicate NoProviderTable(g: Grammar, lines: Lines, d: Option<Delim>)
    decreases |lines|
  {
    lines == [] ||
    if d.None? && g.isTableHeader(lines[0])
      then !g.isProviderTableHeader(lines[0]) && NoProviderTable(g, lines[1..], None)
    else NoProviderTable(g, lines[1..], Advance(g, lines[0], d))
  }

  /** No dotted provider assignment outside multi-line strings. */
  predicate NoAssignment(g: Grammar, lines: Lines, t: Table, d: Option<Delim>)
    decreases |lines|
  {
    lines == [] ||
    if d.None? && g.isTableHeader(lines[0]) then NoAssignment(g, lines[1..], g.tableOf(lines[0]), None)
    else (d.None? ==> !g.isProviderAssignment(t, lines[0])) && NoAssignment(g, lines[1..], t, Advance(g, lines[0], d))
  }

  /** No root model_provider assignment: none before the first table, outside multi-line strings. */
  predicate NoRootValue(g: Grammar, lines: Lines, d: Option<Delim>)
    decreases |lines|
  {
    lines == [] || (d.None? && g.isTableHeader(lines[0])) ||
    ((d.None? ==> !g.isRootModelProvider(lines[0])) && NoRootValue(g, lines[1..], Advance(g, lines[0], d)))
  }

  /** No root model_provider assignment opens a multi-line string. */
  predicate SingleLineRoot(g: Grammar, lines: Lines, d: Option<Delim>)
    decreases |lines|
  {
    lines == [] || (d.None? && g.isTableHeader(lines[0])) ||
    if d.None? && g.isRootModelProvider(lines[0]) then g.open(lines[0]) == None && SingleLineRoot(g, lines[1..], None)
    else SingleLineRoot(g, lines[1..], Advance(g, lines[0], d))
  }

  lemma {:induction false} SectionFilterClears(g: Grammar, lines: Lines, skip: bool, d: Option<Delim>)
    ensures NoProviderTable(g, SectionFilter(g, lines, skip, d), if skip then None else d)
    decreases |lines|
  {
    if lines != [] {
      var tail := lines[1..];
      if d.None? && g.isTableHeader(lines[0]) {
        var drop := g.isProviderTableHeader(lines[0]);
        SectionFilterClears(g, tail, drop, None);
        assert ([lines[0]] + SectionFilter(g, tail, false, None))[1..] == SectionFilter(g, tail, false, None);
      } else {
        SectionFilterClears(g, tail, skip, Advance(g, lines[0], d));
        var f := SectionFilter(g, tail, skip, Advance(g, lines[0], d));
        assert ([lines[0]] + f)[1..] == f && [] + f == f;
      }
    }
  }

  lemma {:induction false} SectionFilterIdentity(g: Grammar, lines: Lines, d: Option<Delim>)
    requires NoProviderTable(g, lines, d)
    ensures SectionFilter(g, lines, false, d) == lines
    decreases |lines|
  {
    if lines != [] {
      SectionFilterIdentity(g, lines[1..], if d.None? && g.isTableHeader(lines[0]) then None
        else Advance(g, lines[0], d));
      assert lines == [lines[0]] + lines[1..];
    }
  }

  lemma {:induction false} SectionFilterKeepsRoot(g: Grammar, lines: Lines, skip: bool, d: Option<Delim>)
    requires skip || NoRootValue(g, lines, d)
    ensures NoRootValue(g, SectionFilter(g, lines, skip, d), if skip then None else d)
    decreases |lines|
  {
    if lines != [] {
      var tail := lines[1..];
      if d.None? && g.isTableHeader(lines[0]) {
        if g.isProviderTableHeader(lines[0]) { SectionFilterKeepsRoot(g, tail, true, None); }
      } else {
        SectionFilterKeepsRoot(g, tail, skip, Advance(g, lines[0], d));
        var f := SectionFilter(g, tail, skip, Advance(g, lines[0], d));
        assert ([lines[0]] + f)[1..] == f && [] + f == f;
      }
    }
  }

  /** The scanning state in which the output of AssignmentFilter continues. */
  function Outer(d: Option<Delim>, dropping: bool): Option<Delim> {
    if dropping then None else d
  }

  lemma {:induction false} AssignmentFilterClears(g: Grammar, lines: Lines, t: Table, d: Option<Delim>, dropping: bool)
    ensures NoAssignment(g, AssignmentFilter(g, lines, t, d, dropping), t, Outer(d, dropping))
    decreases |lines|
  {
    if lines != [] {
      var line, tail := lines[0], lines[1..];
      if d.Some? {
        AssignmentFilterClears(g, tail, t, g.close(line, d.value), dropping);
        var f := AssignmentFilter(g, tail, t, g.close(line, d.value), dropping);
        assert ([line] + f)[1..] == f && [] + f == f;
      } else if g.isTableHeader(line) {
        AssignmentFilterClears(g, tail, g.tableOf(line), None, false);
        var f := AssignmentFilter(g, tail, g.tableOf(line), None, false);
        assert ([line] + f)[1..] == f && [] + f == f;
      } else {
        var drop := g.isProviderAssignment(t, line);
        AssignmentFilterClears(g, tail, t, g.open(line), drop);
        var f := AssignmentFilter(g, tail, t, g.open(line), drop);
        assert ([line] + f)[1..] == f && [] + f == f;
      }
    }
  }

  lemma {:induction false} AssignmentFilterIdentity(g: Grammar, lines: Lines, t: Table, d: Option<Delim>)
    requires NoAssignment(g, lines, t, d)
    ensures AssignmentFilter(g, lines, t, d, false) == lines
    decreases |lines|
  {
    if lines != [] {
      if d.None? && g.isTableHeader(lines[0]) {
        AssignmentFilterIdentity(g, lines[1..], g.tableOf(lines[0]), None);
      } else {
        AssignmentFilterIdentity(g, lines[1..], t, Advance(g, lines[0], d));
      }
      assert lines == [lines[0]] + lines[1..];
    }
  }

  /** Dropping assignments brings no table header and no root assignment into view. */
  lemma {:induction false} AssignmentFilterKeeps(g: Grammar, lines: Lines, t: Table, d: Option<Delim>, dropping: bool)
    ensures NoProviderTable(g, lines, d) ==>
              NoProviderTable(g, AssignmentFilter(g, lines, t, d, dropping), Outer(d, dropping))
    ensures NoRootValue(g, lines, d) ==>
              NoRootValue(g, AssignmentFilter(g, lines, t, d, dropping), Outer(d, dropping))
    decreases |lines|
  {
    if lines != [] {
      var line, tail := lines[0], lines[1..];
      if d.Some? {
        AssignmentFilterKeeps(g, tail, t, g.close(line, d.value), dropping);
        var f := AssignmentFilter(g, tail, t, g.close(line, d.value), dropping);
        assert ([line] + f)[1..] == f && [] + f == f;
      } else if g.isTableHeader(line) {
        AssignmentFilterKeeps(g, tail, g.tableOf(line), None, false);
        var f := AssignmentFilter(g, tail, g.tableOf(line), None, false);
        assert ([line] + f)[1..] == f && [] + f == f;
      } else {
        var drop := g.isProviderAssignment(t, line);
        AssignmentFilterKeeps(g, tail, t, g.open(line), drop);
        var f := AssignmentFilter(g, tail, t, g.open(line), drop);
        assert ([line] + f)[1..] == f && [] + f == f;
      }
    }
  }

  lemma {:induction false} RemoveRootClears(g: Grammar, lines: Lines, d: Option<Delim>)
    requires SingleLineRoot(g, lines, d)
    ensures NoRootValue(g, RemoveRoot(g, lines, NextTable(g, lines, d), d), d)
    decreases |lines|
  {
    if lines != [] && !(d.None? && g.isTableHeader(lines[0])) {
      var next := if d.None? && g.isRootModelProvider(lines[0]) then None else Advance(g, lines[0], d);
      RemoveRootClears(g, lines[1..], next);
      var f := RemoveRoot(g, lines[1..], NextTable(g, lines[1..], next), next);
      assert ([lines[0]] + f)[1..] == f && [] + f == f;
    }
  }

  lemma {:induction false} NoRootValueIdentity(g: Grammar, lines: Lines, d: Option<Delim>)
    requires NoRootValue(g, lines, d)
    ensures var n := NextTable(g, lines, d);
            RemoveRoot(g, lines, n, d) == lines && RemovedValue(g, lines, n, d) == None &&
              ReadRoot(g, lines, n, d) == None
    ensures SingleLineRoot(g, lines, d)
    decreases |lines|
  {
    if lines != [] && !(d.None? && g.isTableHeader(lines[0])) {
      NoRootValueIdentity(g, lines[1..], Advance(g, lines[0], d));
      assert lines == [lines[0]] + lines[1..];
    }
  }

  /** Lines on which the provider filters act as the identity. */
  predicate Cleared(g: Grammar, lines: Lines) {
    NoProviderTable(g, lines, None) && NoAssignment(g, lines, Root, None)
  }

  /** Lines on which all three filters do. */
  predicate Settled(g: Grammar, lines: Lines) {
    Cleared(g, lines) && NoRootValue(g, lines, None)
  }

  /** After the three passes no provider table and no provider assignment is left, whatever the file; nor a root value,
      when none of those removed opened a multi-line string. */
  lemma KeptIsSettled(g: Grammar, lines: Lines)
    ensures Cleared(g, Kept(g, lines))
    ensures SingleLineRoot(g, lines, None) ==> Settled(g, Kept(g, lines))
  {
    var root := RemoveRoot(g, lines, NextTable(g, lines, None), None);
    SectionFilterClears(g, root, false, None);
    if SingleLineRoot(g, lines, None) {
      RemoveRootClears(g, lines, None);
      SectionFilterKeepsRoot(g, root, false, None);
    }
    var open := SectionFilter(g, root, false, None);
    AssignmentFilterClears(g, open, Root, None, false);
    AssignmentFilterKeeps(g, open, Root, None, false);
  }

  lemma ClearedIsKept(g: Grammar, lines: Lines)
    requires Cleared(g, lines)
    ensures AssignmentFilter(g, SectionFilter(g, lines, false, None), Root, None, false) == lines
  {
    SectionFilterIdentity(g, lines, None);
    AssignmentFilterIdentity(g, lines, Root, None);
  }

  lemma SettledIsKept(g: Grammar, lines: Lines)
    requires Settled(g, lines)
    ensures Kept(g, lines) == lines
    ensures RemovedValue(g, lines, NextTable(g, lines, None), None) == None && RootValue(g, lines) == None
  {
    NoRootValueIdentity(g, lines, None);
    ClearedIsKept(g, lines);
  }

  // ---------- counting what the filters take ----------

  /** How many lines are not blank. */
  function Visible(lines: Lines): nat {
    if lines == [] then 0 else (if lines[0] == "" then 0 else 1) + Visible(lines[1..])
  }

  lemma {:induction false} VisibleAppend(a: Lines, b: Lines)
    ensures Visible(a + b) == Visible(a) + Visible(b)
    decreases |a|
  {
    if a == [] {
      assert a + b == b;
    } else {
      assert (a + b)[0] == a[0] && (a + b)[1..] == a[1..] + b;
      VisibleAppend(a[1..], b);
    }
  }

  lemma VisibleCons(line: string, lines: Lines)
    ensures Visible([line] + lines) == (if line == "" then 0 else 1) + Visible(lines)
  {
    assert ([line] + lines)[1..] == lines;
  }

  /** Taking root values takes visible lines; when none is taken there is none. */
  lemma {:induction false} RemoveRootCounts(g: Grammar, lines: Lines, n: nat, d: Option<Delim>)
    requires BlankIsInert(g)
    ensures Visible(RemoveRoot(g, lines, n, d)) <= Visible(lines)
    ensures n == NextTable(g, lines, d) && Visible(RemoveRoot(g, lines, n, d)) == Visible(lines) ==>
      NoRootValue(g, lines, d)
    decreases |lines|
  {
    if lines != [] && n != 0 {
      var next := if d.None? && g.isRootModelProvider(lines[0]) then None else Advance(g, lines[0], d);
      RemoveRootCounts(g, lines[1..], n - 1, next);
      VisibleCons(lines[0], RemoveRoot(g, lines[1..], n - 1, next));
    }
  }

  lemma {:induction false} SectionFilterCounts(g: Grammar, lines: Lines, skip: bool, d: Option<Delim>)
    ensures Visible(SectionFilter(g, lines, skip, d)) <= Visible(lines)
    decreases |lines|
  {
    if lines != [] {
      var header := d.None? && g.isTableHeader(lines[0]);
      var drop := if header then g.isProviderTableHeader(lines[0]) else skip;
      var next := if header then None else Advance(g, lines[0], d);
      SectionFilterCounts(g, lines[1..], drop, next);
      var f := SectionFilter(g, lines[1..], drop, next);
      VisibleCons(lines[0], f);
      assert [] + f == f;
    }
  }

  lemma {:induction false} AssignmentFilterCounts(g: Grammar, lines: Lines, t: Table, d: Option<Delim>, dropping: bool)
    ensures Visible(AssignmentFilter(g, lines, t, d, dropping)) <= Visible(lines)
    decreases |lines|
  {
    if lines != [] {
      var line, tail := lines[0], lines[1..];
      var header := d.None? && g.isTableHeader(line);
      var drop := if d.Some? then dropping else !header && g.isProviderAssignment(t, line);
      var table, next := if header then g.tableOf(line) else t, if header then None else Advance(g, line, d);
      AssignmentFilterCounts(g, tail, table, next, drop);
      var f := AssignmentFilter(g, tail, table, next, drop);
      VisibleCons(line, f);
      assert [] + f == f;
    }
  }

  /** When all passes together take no visible line, there was no root value. */
  lemma KeptCounts(g: Grammar, lines: Lines)
    requires BlankIsInert(g) && Visible(Kept(g, lines)) == Visible(lines)
    ensures NoRootValue(g, lines, None)
  {
    var root := RemoveRoot(g, lines, NextTable(g, lines, None), None);
    RemoveRootCounts(g, lines, NextTable(g, lines, None), None);
    SectionFilterCounts(g, root, false, None);
    AssignmentFilterCounts(g, SectionFilter(g, root, false, None), Root, None, false);
  }

  // ---------- blank lines at either end ----------

  lemma {:induction false} AppendBlank(g: Grammar, lines: Lines, t: Table, d: Option<Delim>)
    requires BlankIsInert(g)
    ensures NoProviderTable(g, lines + [""], d) == NoProviderTable(g, lines, d)
    ensures NoAssignment(g, lines + [""], t, d) == NoAssignment(g, lines, t, d)
    decreases |lines|
  {
    if lines == [] {
      assert [""][1..] == [] && lines + [""] == [""];
    } else {
      assert (lines + [""])[1..] == lines[1..] + [""];
      if d.None? && g.isTableHeader(lines[0]) {
        AppendBlank(g, lines[1..], g.tableOf(lines[0]), None);
      } else {
        AppendBlank(g, lines[1..], t, Advance(g, lines[0], d));
      }
    }
  }

  lemma {:induction false} AppendBlankToRoot(g: Grammar, lines: Lines, d: Option<Delim>)
    requires BlankIsInert(g)
    ensures NoRootValue(g, lines + [""], d) == NoRootValue(g, lines, d)
    ensures ReadRoot(g, lines + [""], NextTable(g, lines + [""], d), d) == ReadRoot(g, lines, NextTable(g, lines, d), d)
    ensures NextTable(g, lines + [""], d) == var n := NextTable(g, lines, d); if n == |lines| then n + 1 else n
    decreases |lines|
  {
    if lines == [] {
      assert [""][1..] == [] && lines + [""] == [""];
    } else {
      assert (lines + [""])[1..] == lines[1..] + [""];
      if d.Some? || !g.isTableHeader(lines[0]) { AppendBlankToRoot(g, lines[1..], Advance(g, lines[0], d)); }
    }
  }

  /** Alike for every filter. */
  predicate Alike(g: Grammar, a: Lines, b: Lines) {
    Cleared(g, a) == Cleared(g, b) && NoRootValue(g, a, None) == NoRootValue(g, b, None) &&
      RootValue(g, a) == RootValue(g, b)
  }

  lemma DropBlank(g: Grammar, lines: Lines)
    requires BlankIsInert(g) && lines != [] && lines[0] == ""
    ensures Alike(g, lines, lines[1..])
    ensures NextTable(g, lines, None) == 1 + NextTable(g, lines[1..], None)
  {
  }

  lemma {:induction false} TrimmedLengthIs(lines: Lines, n: nat)
    requires n <= |lines| && (n > 0 ==> lines[n - 1] != "") && forall j :: n <= j < |lines| ==> lines[j] == ""
    ensures TrimmedLength(lines) == n
    decreases |lines|
  {
    if n < |lines| { TrimmedLengthIs(lines[..|lines| - 1], n); }
  }

  lemma {:induction false} TrimmedLengthMeaning(lines: Lines)
    ensures var n := TrimmedLength(lines);
            (n > 0 ==> lines[n - 1] != "") && forall j :: n <= j < |lines| ==> lines[j] == ""
    decreases |lines|
  {
    if lines != [] && lines[|lines| - 1] == "" { TrimmedLengthMeaning(lines[..|lines| - 1]); }
  }

  lemma RootIndexAppendBlank(g: Grammar, lines: Lines)
    requires BlankIsInert(g)
    ensures RootIndex(g, lines + [""]) == RootIndex(g, lines)
  {
    AppendBlankToRoot(g, lines, None);
    assert (lines + [""])[..|lines|] == lines;
  }

  lemma RootIndexDropBlank(g: Grammar, lines: Lines)
    requires BlankIsInert(g) && lines != [] && lines[0] == "" && RootIndex(g, lines) > 0
    ensures RootIndex(g, lines[1..]) == RootIndex(g, lines) - 1
  {
    DropBlank(g, lines);
    if NextTable(g, lines, None) == |lines| {
      TrimmedLengthMeaning(lines);
      TrimmedLengthIs(lines[1..], TrimmedLength(lines) - 1);
    }
  }

  /** Leading blank lines before the insertion point can go. */
  lemma {:induction false} DropBlanks(g: Grammar, lines: Lines, k: nat)
    requires BlankIsInert(g) && k <= RootIndex(g, lines) && forall j :: 0 <= j < k ==> lines[j] == ""
    ensures RootIndex(g, lines[k..]) == RootIndex(g, lines) - k
    ensures Alike(g, lines, lines[k..])
    decreases k
  {
    if k == 0 {
      assert lines[0..] == lines;
    } else {
      RootIndexDropBlank(g, lines);
      DropBlank(g, lines);
      DropBlanks(g, lines[1..], k - 1);
      assert lines[1..][k - 1..] == lines[k..];
    }
  }

  // ---------- files and lines ----------

  /** A line as it stands in a file: no line break inside. */
  predicate PlainLine(s: string) {
    forall i :: 0 <= i < |s| ==> s[i] != '\n' && s[i] != '\r'
  }

  predicate PlainLines(lines: Lines) {
    forall l :: l in lines ==> PlainLine(l)
  }

  lemma {:induction false} NormalizedHasNoCr(s: string)
    ensures '\r' !in Normalized(s)
    decreases |s|
  {
    if s != "" {
      if s[0] == '\r' {
        NormalizedHasNoCr(if |s| > 1 && s[1] == '\n' then s[2..] else s[1..]);
      } else {
        NormalizedHasNoCr(s[1..]);
      }
    }
  }

  lemma {:induction false} NormalizedIdentity(s: string)
    requires '\r' !in s
    ensures Normalized(s) == s
    decreases |s|
  {
    if s != "" {
      assert s[0] in s;
      NormalizedIdentity(s[1..]);
      assert [s[0]] + s[1..] == s;
    }
  }

  lemma {:induction false} SplitCharKeeps(s: string, c: char, x: char)
    requires x !in s
    ensures forall p :: p in SplitChar(s, c) ==> x !in p
    decreases |s|
  {
    if c in s {
      SplitCharKeeps(s[IndexOfChar(s, c) + 1..], c, x);
    }
  }

  lemma SplitLinesPlain(content: string)
    ensures PlainLines(SplitLines(content))
  {
    NormalizedHasNoCr(content);
    SplitCharKeeps(Normalized(content), '\n', '\r');
  }

  lemma {:induction false} JoinHasNoCr(lines: Lines)
    requires PlainLines(lines)
    ensures '\r' !in Join(lines, "\n")
    decreases |lines|
  {
    if lines != [] {
      assert lines[0] in lines;
      JoinHasNoCr(lines[1..]);
    }
  }

  lemma {:induction false} JoinEndsWithBreak(lines: Lines)
    requires lines != []
    ensures Join(lines + [""], "\n") == Join(lines, "\n") + "\n"
    decreases |lines|
  {
    if |lines| > 1 {
      JoinEndsWithBreak(lines[1..]);
      assert (lines + [""])[1..] == lines[1..] + [""];
      Assoc(lines[0] + "\n", Join(lines[1..], "\n"), "\n");
    } else {
      assert (lines + [""])[1..] == [""];
    }
  }

  /** Writing lines to a file and splitting the file gives the lines back. */
  lemma SplitJoined(lines: Lines)
    requires lines != [] && PlainLines(lines)
    ensures SplitLines(Join(lines, "\n") + "\n") == lines
  {
    var s := Join(lines, "\n") + "\n";
    JoinHasNoCr(lines);
    NormalizedIdentity(s);
    JoinEndsWithBreak(lines);
    SplitJoin(lines + [""], '\n');
    assert (lines + [""])[..|lines|] == lines;
  }

  predicate AllBlank(lines: Lines) {
    forall j :: 0 <= j < |lines| ==> lines[j] == ""
  }

  lemma {:induction false} DropLeadingBlanks(blanks: Lines, lines: Lines)
    requires AllBlank(blanks)
    ensures DropLeading(blanks + lines) == DropLeading(lines)
    decreases |blanks|
  {
    if blanks == [] {
      assert blanks + lines == lines;
    } else {
      assert (blanks + lines)[1..] == blanks[1..] + lines;
      DropLeadingBlanks(blanks[1..], lines);
    }
  }

  lemma {:induction false} DropTrailingBlanks(lines: Lines, blanks: Lines)
    requires AllBlank(blanks)
    ensures DropTrailing(lines + blanks) == DropTrailing(lines)
    decreases |blanks|
  {
    if blanks == [] {
      assert lines + blanks == lines;
    } else {
      assert (lines + blanks)[..|lines + blanks| - 1] == lines + blanks[..|blanks| - 1];
      DropTrailingBlanks(lines, blanks[..|blanks| - 1]);
    }
  }

  /** The blank lines at the front, counted. */
  function Leading(lines: Lines): (k: nat)
    ensures k <= |lines| && forall j :: 0 <= j < k ==> lines[j] == ""
    ensures k < |lines| ==> lines[k] != ""
  {
    if lines != [] && lines[0] == "" then 1 + Leading(lines[1..]) else 0
  }

  lemma {:induction false} DropLeadingIs(lines: Lines)
    ensures DropLeading(lines) == lines[Leading(lines)..]
    decreases |lines|
  {
    if lines != [] && lines[0] == "" { DropLeadingIs(lines[1..]); }
  }

  /** Blank lines around the text never show in the formatted file. */
  lemma FormatTrims(before: Lines, lines: Lines, after: Lines)
    requires AllBlank(before) && AllBlank(after)
    ensures FormatLines(before + lines + after) == FormatLines(lines)
  {
    Assoc(before, lines, after);
    DropLeadingBlanks(before, lines + after);
    DropLeadingIs(lines + after);
    DropLeadingIs(lines);
    var k := Leading(lines);
    if k < |lines| {
      assert Leading(lines + after) == k by { LeadingIs(lines + after, k); }
      assert (lines + after)[k..] == lines[k..] + after;
      DropTrailingBlanks(lines[k..], after);
    } else {
      DropLeadingBlanks(lines + after, []);
      assert lines + after + [] == lines + after;
    }
  }

  lemma {:induction false} LeadingIs(lines: Lines, k: nat)
    requires k < |lines| && lines[k] != "" && forall j :: 0 <= j < k ==> lines[j] == ""
    ensures Leading(lines) == k
    decreases k
  {
    if k > 0 { LeadingIs(lines[1..], k - 1); }
  }
}
