/**
 The Codex configuration editor of src/codex/toml-config.js: a line rewriter that adds and removes
 collectivus-managed blocks. Each loop is a method proved against a one-pass function on the lines;
 what attaching and detaching do to a file is then proved about those functions.
 */
module CodexToml {
  import opened Wrappers
  import opened Text
  import opened TomlText

  type Lines = seq<string>

  const ROOT_BEGIN := "# BEGIN collectivus codex model_provider"
  const ROOT_END := "# END collectivus codex model_provider"
  const PROVIDER_BEGIN := "# BEGIN collectivus codex provider"
  const PROVIDER_END := "# END collectivus codex provider"

  // ---------- lines ----------

  /** Every CR LF and every lone CR becomes LF. */
  function Normalized(s: string): string
    decreases |s|
  {
    if s == "" then ""
    else if s[0] == '\r' then "\n" + Normalized(if |s| > 1 && s[1] == '\n' then s[2..] else s[1..])
    else [s[0]] + Normalized(s[1..])
  }

  function SplitLines(content: string): Lines {
    if Normalized(content) == "" then []
    else
      var parts := SplitChar(Normalized(content), '\n');
      if parts[|parts| - 1] == "" then parts[..|parts| - 1] else parts
  }

  function DropLeading(lines: Lines): Lines {
    if lines != [] && lines[0] == "" then DropLeading(lines[1..]) else lines
  }

  function DropTrailing(lines: Lines): Lines {
    if lines != [] && lines[|lines| - 1] == "" then DropTrailing(lines[..|lines| - 1]) else lines
  }

  function FormatLines(lines: Lines): string {
    var out := DropTrailing(DropLeading(lines));
    if out == [] then "" else Join(out, "\n") + "\n"
  }

  lemma LeadingBlank(lines: Lines, start: nat)
    requires start < |lines|
    ensures DropLeading(lines[start..]) == if lines[start] == "" then DropLeading(lines[start + 1..])
      else lines[start..]
  {
    assert lines[start..][0] == lines[start] && lines[start..][1..] == lines[start + 1..];
  }

  lemma TrailingBlank(lines: Lines, start: nat, end: nat)
    requires start < end <= |lines|
    ensures DropTrailing(lines[start..end]) ==
            if lines[end - 1] == "" then DropTrailing(lines[start..end - 1]) else lines[start..end]
  {
    var current := lines[start..end];
    assert current[|current| - 1] == lines[end - 1] && current[..|current| - 1] == lines[start..end - 1];
  }

  method FormatLinesLoop(lines: Lines) returns (content: string)
    ensures content == FormatLines(lines)
  {
    var start, end := 0, |lines|;
    while start < end && lines[start] == ""
      invariant 0 <= start <= end
      invariant DropLeading(lines[start..]) == DropLeading(lines)
    {
      LeadingBlank(lines, start);
      start := start + 1;
    }
    assert lines[start..end] == lines[start..];
    if start < end { LeadingBlank(lines, start); }
    while end > start && lines[end - 1] == ""
      invariant start <= end <= |lines|
      invariant DropTrailing(lines[start..end]) == DropTrailing(DropLeading(lines))
    {
      TrailingBlank(lines, start, end);
      end := end - 1;
    }
    if start < end { TrailingBlank(lines, start, end); }
    var out := lines[start..end];
    content := if |out| == 0 then "" else Join(out, "\n") + "\n";
  }

  // ---------- tables ----------

  datatype Table = Root | ModelProviders | Other

  /** How single lines are read; the editor knows its input only through these tests. */
  datatype Grammar = Grammar(
    isTableHeader: string -> bool,
    isProviderTableHeader: string -> bool,
    isRootModelProvider: string -> bool,
    tableOf: string -> Table,
    isProviderAssignment: (Table, string) -> bool,
    close: (string, Delim) -> Option<Delim>,
    open: string -> Option<Delim>)

  function TableOf(header: string): Table {
    if IsModelProvidersHeader(header) then ModelProviders else Other
  }

  predicate IsProviderAssignment(t: Table, line: string) {
    (t == Root && IsProviderDottedAssignment(line)) || (t == ModelProviders && IsProviderChildAssignment(line))
  }

  /** The tests of the source. */
  const TOML := Grammar(IsTableHeader, IsProviderTableHeader, IsRootModelProviderLine, TableOf,
      IsProviderAssignment, Close, Open)

  /** The multi-line string still open after a line that is no header. */
  function Advance(g: Grammar, line: string, d: Option<Delim>): Option<Delim> {
    if d.Some? then g.close(line, d.value) else g.open(line)
  }

  /** How many lines come before the next table header outside multi-line strings. */
  function NextTable(g: Grammar, lines: Lines, d: Option<Delim>): (n: nat)
    ensures n <= |lines|
    decreases |lines|
  {
    if lines == [] || (d.None? && g.isTableHeader(lines[0])) then 0
    else 1 + NextTable(g, lines[1..], Advance(g, lines[0], d))
  }

  method FindNextTableIndex(g: Grammar, lines: Lines, start: nat) returns (index: nat)
    requires start <= |lines|
    ensures index == start + NextTable(g, lines[start..], None)
  {
    var d: Option<Delim> := None;
    for i := start to |lines|
      invariant start + NextTable(g, lines[start..], None) == i + NextTable(g, lines[i..], d)
    {
      var line := lines[i];
      assert lines[i..][1..] == lines[i + 1..];
      if d.Some? {
        d := g.close(line, d.value);
        continue;
      }
      if g.isTableHeader(line) { return i; }
      d := g.open(line);
    }
    return |lines|;
  }

  function TrimmedLength(lines: Lines): (n: nat)
    ensures n <= |lines|
  {
    if lines != [] && lines[|lines| - 1] == "" then TrimmedLength(lines[..|lines| - 1]) else |lines|
  }

  /** Root assignments go before the first table, or before the trailing blank lines when there is none. */
  function RootIndex(g: Grammar, lines: Lines): (n: nat)
    ensures n <= |lines|
  {
    var n := NextTable(g, lines, None);
    if n == |lines| then TrimmedLength(lines) else n
  }

  function InsertRoot(g: Grammar, lines: Lines, insert: Lines): Lines {
    lines[..RootIndex(g, lines)] + insert + lines[RootIndex(g, lines)..]
  }

  method InsertRootLines(g: Grammar, lines: Lines, insert: Lines) returns (next: Lines)
    ensures next == InsertRoot(g, lines, insert)
  {
    var index := FindNextTableIndex(g, lines, 0);
    assert lines[0..] == lines;
    if index == |lines| {
      assert lines[..index] == lines;
      while index > 0 && lines[index - 1] == ""
        invariant 0 <= index <= |lines|
        invariant TrimmedLength(lines[..index]) == TrimmedLength(lines)
      {
        assert lines[..index][..index - 1] == lines[..index - 1];
        index := index - 1;
      }
    }
    next := lines[..index] + insert + lines[index..];
  }

  // ---------- the root model_provider ----------

  /** The first `n` lines without root model_provider assignments outside strings; a removed line opens nothing. */
  function RemoveRoot(g: Grammar, lines: Lines, n: nat, d: Option<Delim>): Lines
    decreases |lines|
  {
    if lines == [] || n == 0 then lines
    else if d.None? && g.isRootModelProvider(lines[0]) then RemoveRoot(g, lines[1..], n - 1, None)
    else [lines[0]] + RemoveRoot(g, lines[1..], n - 1, Advance(g, lines[0], d))
  }

  /** The first parseable value among the assignments that RemoveRoot removes. */
  function RemovedValue(g: Grammar, lines: Lines, n: nat, d: Option<Delim>): Option<string>
    decreases |lines|
  {
    if lines == [] || n == 0 then None
    else if d.None? && g.isRootModelProvider(lines[0]) then
      var v := ParseAssignmentString(lines[0]);
      if v.Some? then v else RemovedValue(g, lines[1..], n - 1, None)
    else RemovedValue(g, lines[1..], n - 1, Advance(g, lines[0], d))
  }

  method RemoveRootModelProvider(g: Grammar, lines: Lines) returns (next: Lines, prevValue: Option<string>)
    ensures next == RemoveRoot(g, lines, NextTable(g, lines, None), None)
    ensures prevValue == RemovedValue(g, lines, NextTable(g, lines, None), None)
  {
    var firstTable := FindNextTableIndex(g, lines, 0);
    assert lines[0..] == lines;
    next, prevValue := [], None;
    var d: Option<Delim> := None;
    for i := 0 to |lines|
      invariant i >= firstTable ==> next + lines[i..] == RemoveRoot(g, lines, firstTable, None)
      invariant i < firstTable ==>
                  next + RemoveRoot(g, lines[i..], firstTable - i, d) == RemoveRoot(g, lines, firstTable, None)
      invariant (if prevValue.Some? || i >= firstTable then prevValue
        else RemovedValue(g, lines[i..], firstTable - i, d))
                == RemovedValue(g, lines, firstTable, None)
    {
      var line := lines[i];
      assert lines[i..][1..] == lines[i + 1..];
      assert lines[i..] == [line] + lines[i + 1..];
      Assoc(next, [line], if i < firstTable then RemoveRoot(g, lines[i + 1..], firstTable - i - 1, Advance(g, line, d))
        else lines[i + 1..]);
      if i < firstTable && d.Some? {
        d := g.close(line, d.value);
        next := next + [line];
        continue;
      }
      if i < firstTable && g.isRootModelProvider(line) {
        if prevValue.None? { prevValue := ParseAssignmentString(line); }
        continue;
      }
      next := next + [line];
      if i < firstTable { d := g.open(line); }
    }
  }

  /** Like RemovedValue, but an assignment it cannot parse is scanned on as an ordinary line. */
  function ReadRoot(g: Grammar, lines: Lines, n: nat, d: Option<Delim>): Option<string>
    decreases |lines|
  {
    if lines == [] || n == 0 then None
    else if d.None? && g.isRootModelProvider(lines[0]) && ParseAssignmentString(lines[0]).Some? then
      ParseAssignmentString(lines[0])
    else ReadRoot(g, lines[1..], n - 1, Advance(g, lines[0], d))
  }

  function RootValue(g: Grammar, lines: Lines): Option<string> {
    ReadRoot(g, lines, NextTable(g, lines, None), None)
  }

  method ReadRootModelProvider(g: Grammar, lines: Lines) returns (value: Option<string>)
    ensures value == RootValue(g, lines)
  {
    var firstTable := FindNextTableIndex(g, lines, 0);
    assert lines[0..] == lines;
    var d: Option<Delim> := None;
    for i := 0 to firstTable
      invariant ReadRoot(g, lines[i..], firstTable - i, d) == RootValue(g, lines)
    {
      assert lines[i..][1..] == lines[i + 1..];
      if d.Some? {
        d := g.close(lines[i], d.value);
        continue;
      }
      var parsed := if g.isRootModelProvider(lines[i]) then ParseAssignmentString(lines[i]) else None;
      if parsed.Some? { return parsed; }
      d := g.open(lines[i]);
    }
    return None;
  }

  // ---------- provider tables ----------

  /** One pass: a collectivus header and what follows it, up to the next header outside strings, is dropped. */
  function SectionFilter(g: Grammar, lines: Lines, skip: bool, d: Option<Delim>): Lines
    decreases |lines|
  {
    if lines == [] then []
    else if d.None? && g.isTableHeader(lines[0]) then
      if g.isProviderTableHeader(lines[0]) then SectionFilter(g, lines[1..], true, None)
      else [lines[0]] + SectionFilter(g, lines[1..], false, None)
    else (if skip then [] else [lines[0]]) + SectionFilter(g, lines[1..], skip, Advance(g, lines[0], d))
  }

  /** Up to the next header the filter keeps everything or nothing. */
  lemma {:induction false} SectionFilterJump(g: Grammar, lines: Lines, skip: bool, d: Option<Delim>)
    ensures var n := NextTable(g, lines, d);
            SectionFilter(g, lines, skip, d) ==
              (if skip then [] else lines[..n]) + SectionFilter(g, lines[n..], false, None)
    decreases |lines|
  {
    var n := NextTable(g, lines, d);
    if lines != [] {
      if d.None? && g.isTableHeader(lines[0]) {
        assert lines[0..] == lines && lines[..0] == [];
      } else {
        SectionFilterJump(g, lines[1..], skip, Advance(g, lines[0], d));
        assert lines[n..] == lines[1..][n - 1..] && lines[..n] == [lines[0]] + lines[1..][..n - 1];
      }
    }
  }

  /** Up to the next header everything is kept. */
  lemma KeptToHeader(g: Grammar, lines: Lines, i: nat, tableIndex: nat)
    requires i <= |lines| && tableIndex == i + NextTable(g, lines[i..], None)
    ensures SectionFilter(g, lines[i..], false, None) ==
            lines[i..tableIndex] + SectionFilter(g, lines[tableIndex..], false, None)
    ensures tableIndex < |lines| ==> g.isTableHeader(lines[tableIndex])
  {
    SectionFilterJump(g, lines[i..], false, None);
    TailSlices(lines, i, tableIndex - i);
    HeaderAtNextTable(g, lines[i..], None);
  }

  /** The section of a collectivus header is jumped over. */
  lemma SectionDropped(g: Grammar, lines: Lines, tableIndex: nat)
    requires tableIndex < |lines| && g.isTableHeader(lines[tableIndex]) && g.isProviderTableHeader(lines[tableIndex])
    ensures var n := NextTable(g, lines[tableIndex + 1..], None);
            SectionFilter(g, lines[tableIndex..], false, None) ==
            SectionFilter(g, lines[tableIndex + 1 + n..], false, None)
  {
    TailSlices(lines, tableIndex, 1);
    var tail := lines[tableIndex + 1..];
    SectionFilterJump(g, tail, true, None);
    TailSlices(lines, tableIndex + 1, NextTable(g, tail, None));
  }

  /** A turn that meets a collectivus header goes on after its section. */
  lemma TurnDrops(g: Grammar, lines: Lines, i: nat, tableIndex: nat, next: Lines)
    requires i <= |lines| && tableIndex == i + NextTable(g, lines[i..], None) && tableIndex < |lines|
    requires g.isProviderTableHeader(lines[tableIndex])
    ensures var after := tableIndex + 1 + NextTable(g, lines[tableIndex + 1..], None);
            next + SectionFilter(g, lines[i..], false, None) ==
            next + lines[i..tableIndex] + SectionFilter(g, lines[after..], false, None)
  {
    KeptToHeader(g, lines, i, tableIndex);
    SectionDropped(g, lines, tableIndex);
    Assoc(next, lines[i..tableIndex], SectionFilter(g, lines[tableIndex..], false, None));
  }

  /** A turn that meets another header keeps it. */
  lemma TurnKeeps(g: Grammar, lines: Lines, i: nat, tableIndex: nat, next: Lines)
    requires i <= |lines| && tableIndex == i + NextTable(g, lines[i..], None) && tableIndex < |lines|
    requires !g.isProviderTableHeader(lines[tableIndex])
    ensures next + SectionFilter(g, lines[i..], false, None) ==
            next + lines[i..tableIndex] + [lines[tableIndex]] + SectionFilter(g, lines[tableIndex + 1..], false, None)
  {
    KeptToHeader(g, lines, i, tableIndex);
    TailSlices(lines, tableIndex, 1);
    Assoc(next, lines[i..tableIndex], SectionFilter(g, lines[tableIndex..], false, None));
    Assoc(next + lines[i..tableIndex], [lines[tableIndex]], SectionFilter(g, lines[tableIndex + 1..], false, None));
  }

  /** Without a header ahead, everything stays. */
  lemma LastTurn(g: Grammar, lines: Lines, i: nat)
    requires i <= |lines| && i + NextTable(g, lines[i..], None) == |lines|
    ensures SectionFilter(g, lines[i..], false, None) == lines[i..]
  {
    KeptToHeader(g, lines, i, |lines|);
    assert lines[i..|lines|] + [] == lines[i..];
  }

  /** Where the loop starts, and what it has when no lines are left. */
  lemma LoopEnds(g: Grammar, lines: Lines, next: Lines)
    ensures [] + SectionFilter(g, lines[0..], false, None) == SectionFilter(g, lines, false, None)
    ensures next + SectionFilter(g, lines[|lines|..], false, None) == next
  {
    assert lines[0..] == lines && lines[|lines|..] == [] && next + [] == next;
  }

  /** The index-jumping loop of the source computes the one-pass filter. */
  method RemoveProviderTable(g: Grammar, lines: Lines) returns (next: Lines)
    ensures next == SectionFilter(g, lines, false, None)
  {
    next := [];
    var i := 0;
    LoopEnds(g, lines, next);
    while i < |lines|
      invariant 0 <= i <= |lines|
      invariant next + SectionFilter(g, lines[i..], false, None) == SectionFilter(g, lines, false, None)
    {
      var tableIndex := FindNextTableIndex(g, lines, i);
      if tableIndex == |lines| {
        LastTurn(g, lines, i);
        next := next + lines[i..];
        return;
      }
      if g.isProviderTableHeader(lines[tableIndex]) { TurnDrops(g, lines, i, tableIndex, next); }
      else { TurnKeeps(g, lines, i, tableIndex, next); }
      next := next + lines[i..tableIndex];
      if g.isProviderTableHeader(lines[tableIndex]) {
        i := FindNextTableIndex(g, lines, tableIndex + 1);
      } else {
        next := next + [lines[tableIndex]];
        i := tableIndex + 1;
      }
    }
    LoopEnds(g, lines, next);
  }

  lemma {:induction false} HeaderAtNextTable(g: Grammar, lines: Lines, d: Option<Delim>)
    ensures NextTable(g, lines, d) < |lines| ==> g.isTableHeader(lines[NextTable(g, lines, d)])
    decreases |lines|
  {
    if lines != [] && !(d.None? && g.isTableHeader(lines[0])) {
      HeaderAtNextTable(g, lines[1..], Advance(g, lines[0], d));
    }
  }

  // ---------- dotted assignments ----------

  /** Provider assignments are dropped together with the string they open. */
  function AssignmentFilter(g: Grammar, lines: Lines, t: Table, d: Option<Delim>, dropping: bool): Lines
    decreases |lines|
  {
    if lines == [] then []
    else
      var line, tail := lines[0], lines[1..];
      if d.Some? then (if dropping then [] else [line]) + AssignmentFilter(g, tail, t, g.close(line, d.value), dropping)
      else if g.isTableHeader(line) then [line] + AssignmentFilter(g, tail, g.tableOf(line), None, false)
      else if g.isProviderAssignment(t, line) then AssignmentFilter(g, tail, t, g.open(line), true)
      else [line] + AssignmentFilter(g, tail, t, g.open(line), false)
  }

  method RemoveProviderDottedAssignments(g: Grammar, lines: Lines) returns (next: Lines)
    ensures next == AssignmentFilter(g, lines, Root, None, false)
  {
    next := [];
    var t := Root;
    var d: Option<Delim>, removed: Option<Delim> := None, None;
    assert lines[0..] == lines;
    ghost var todo := AssignmentFilter(g, lines, Root, None, false);
    for i := 0 to |lines|
      invariant d.None? || removed.None?
      invariant todo == AssignmentFilter(g, lines[i..], t, if removed.Some? then removed else d, removed.Some?)
      invariant next + todo == AssignmentFilter(g, lines, Root, None, false)
    {
      var line := lines[i];
      assert lines[i..][1..] == lines[i + 1..];
      DroppingIsMoot(g, lines[i + 1..], t);
      if removed.Some? {
        removed := g.close(line, removed.value);
        todo := AssignmentFilter(g, lines[i + 1..], t, removed, removed.Some?);
        continue;
      }
      if d.Some? {
        d := g.close(line, d.value);
      } else if g.isTableHeader(line) {
        t := g.tableOf(line);
      } else if g.isProviderAssignment(t, line) {
        removed := g.open(line);
        todo := AssignmentFilter(g, lines[i + 1..], t, removed, removed.Some?);
        continue;
      } else {
        d := g.open(line);
      }
      todo := AssignmentFilter(g, lines[i + 1..], t, d, false);
      Assoc(next, [line], todo);
      next := next + [line];
    }
  }

  lemma DroppingIsMoot(g: Grammar, lines: Lines, t: Table)
    ensures AssignmentFilter(g, lines, t, None, true) == AssignmentFilter(g, lines, t, None, false)
  {
  }

  // ---------- marked blocks ----------

  /** The lines after the first `end` marker. */
  function AfterMarker(lines: Lines, end: string): (r: Option<Lines>)
    ensures r.Some? ==> |r.value| < |lines|
  {
    if lines == [] then None
    else if Trim(lines[0]) == end then Some(lines[1..])
    else AfterMarker(lines[1..], end)
  }

  /** All blocks from `begin` to `end` removed; None when one is not terminated. */
  function RemoveMarked(lines: Lines, begin: string, end: string): Option<Lines>
    decreases |lines|
  {
    if lines == [] then Some([])
    else if Trim(lines[0]) != begin then
      var tail := RemoveMarked(lines[1..], begin, end);
      if tail.None? then None else Some([lines[0]] + tail.value)
    else
      var after := AfterMarker(lines[1..], end);
      if after.None? then None else RemoveMarked(after.value, begin, end)
  }

  /** Whether a block is there; None when the first one is not terminated. */
  function HasMarked(lines: Lines, begin: string, end: string): Option<bool>
    decreases |lines|
  {
    if lines == [] then Some(false)
    else if Trim(lines[0]) != begin then HasMarked(lines[1..], begin, end)
    else if AfterMarker(lines[1..], end).None? then None
    else Some(true)
  }

  method FindMarker(lines: Lines, start: nat, end: string) returns (i: nat)
    requires start <= |lines|
    ensures start <= i <= |lines|
    ensures AfterMarker(lines[start..], end) == if i == |lines| then None else Some(lines[i + 1..])
  {
    i := start;
    while i < |lines|
      invariant start <= i <= |lines|
      invariant AfterMarker(lines[i..], end) == AfterMarker(lines[start..], end)
    {
      assert lines[i..][1..] == lines[i + 1..];
      if Trim(lines[i]) == end { return; }
      i := i + 1;
    }
  }

  /** The same with the lines kept so far, as the loop below goes on. */
  function RemoveOnto(kept: Lines, lines: Lines, begin: string, end: string): Option<Lines>
    decreases |lines|
  {
    if lines == [] then Some(kept)
    else if Trim(lines[0]) != begin then RemoveOnto(kept + [lines[0]], lines[1..], begin, end)
    else
      var after := AfterMarker(lines[1..], end);
      if after.None? then None else RemoveOnto(kept, after.value, begin, end)
  }

  lemma {:induction false} RemoveOntoIs(kept: Lines, lines: Lines, begin: string, end: string)
    ensures RemoveOnto(kept, lines, begin, end) ==
            var tail := RemoveMarked(lines, begin, end);
            if tail.None? then None else Some(kept + tail.value)
    decreases |lines|
  {
    if lines == [] {
      assert kept + [] == kept;
    } else if Trim(lines[0]) != begin {
      RemoveOntoIs(kept + [lines[0]], lines[1..], begin, end);
      var tail := RemoveMarked(lines[1..], begin, end);
      if tail.Some? { Assoc(kept, [lines[0]], tail.value); }
    } else {
      var after := AfterMarker(lines[1..], end);
      if after.Some? { RemoveOntoIs(kept, after.value, begin, end); }
    }
  }

  lemma RemoveFromNothing(lines: Lines, begin: string, end: string)
    ensures RemoveOnto([], lines, begin, end) == RemoveMarked(lines, begin, end)
  {
    RemoveOntoIs([], lines, begin, end);
    var all := RemoveMarked(lines, begin, end);
    assert all.Some? ==> [] + all.value == all.value;
  }

  method RemoveMarkedBlock(lines: Lines, begin: string, end: string) returns (result: Option<Lines>)
    ensures result == RemoveMarked(lines, begin, end)
  {
    var next: Lines := [];
    var i := 0;
    RemoveFromNothing(lines, begin, end);
    assert lines[0..] == lines;
    while i < |lines|
      invariant 0 <= i <= |lines|
      invariant RemoveOnto(next, lines[i..], begin, end) == RemoveMarked(lines, begin, end)
    {
      assert lines[i..][1..] == lines[i + 1..];
      if Trim(lines[i]) != begin {
        next := next + [lines[i]];
        i := i + 1;
        continue;
      }
      var found := FindMarker(lines, i + 1, end);
      if found == |lines| { return None; }
      i := found + 1;
    }
    result := Some(next);
  }

  method HasMarkedBlock(lines: Lines, begin: string, end: string) returns (result: Option<bool>)
    ensures result == HasMarked(lines, begin, end)
  {
    assert lines[0..] == lines;
    for i := 0 to |lines|
      invariant HasMarked(lines[i..], begin, end) == HasMarked(lines, begin, end)
    {
      assert lines[i..][1..] == lines[i + 1..];
      if Trim(lines[i]) != begin { continue; }
      var found := FindMarker(lines, i + 1, end);
      return if found == |lines| then None else Some(true);
    }
    return Some(false);
  }

  /** `/^#\s*key\s*=\s*(.+)$/`; the group never holds a line terminator. */
  function MatchComment(line: string, key: string): Option<string> {
    if line == "" || line[0] != '#' then None
    else
      var a := TrimStart(line[1..]);
      if !StartsWith(a, key) then None
      else
        var b := TrimStart(a[|key|..]);
        if b == "" || b[0] != '=' then None
        else
          var v := TrimStart(b[1..]);
          if v != "" then (if OneLine(v) then Some(v) else None)
          else if b[1..] != "" && !IsLineTerminator(b[|b| - 1]) then Some(b[|b| - 1..])
          else None
  }

  const PREVIOUS_KEY := "previous_model_provider"

  /** The commented value inside the first root block. */
  function ReadPrevious(lines: Lines, inside: bool): Option<string>
    decreases |lines|
  {
    if lines == [] then None
    else
      var line, tail := lines[0], lines[1..];
      if Trim(line) == ROOT_BEGIN then ReadPrevious(tail, true)
      else if inside && Trim(line) == ROOT_END then None
      else if !inside || MatchComment(line, PREVIOUS_KEY).None? then ReadPrevious(tail, inside)
      else ParseTomlString(MatchComment(line, PREVIOUS_KEY).value)
  }

  method ReadPreviousModelProvider(lines: Lines) returns (value: Option<string>)
    ensures value == ReadPrevious(lines, false)
  {
    var inside := false;
    assert lines[0..] == lines;
    for i := 0 to |lines|
      invariant ReadPrevious(lines[i..], inside) == ReadPrevious(lines, false)
    {
      assert lines[i..][1..] == lines[i + 1..];
      var trimmed := Trim(lines[i]);
      if trimmed == ROOT_BEGIN {
        inside := true;
        continue;
      }
      if inside && trimmed == ROOT_END { return None; }
      if !inside { continue; }
      var m := MatchComment(lines[i], PREVIOUS_KEY);
      if m.None? { continue; }
      return ParseTomlString(m.value);
    }
    return None;
  }

  /** The assignment to base_url inside the first provider block. */
  function ReadBaseUrl(lines: Lines, inside: bool): Option<string>
    decreases |lines|
  {
    if lines == [] then None
    else
      var line, tail := lines[0], lines[1..];
      if Trim(line) == PROVIDER_BEGIN then ReadBaseUrl(tail, true)
      else if inside && Trim(line) == PROVIDER_END then None
      else if !inside || !MatchesPrefix(Assignment(Word("base_url")), line) then ReadBaseUrl(tail, inside)
      else ParseAssignmentString(line)
  }

  method ReadManagedProviderBaseUrl(lines: Lines) returns (value: Option<string>)
    ensures value == ReadBaseUrl(lines, false)
  {
    var inside := false;
    assert lines[0..] == lines;
    for i := 0 to |lines|
      invariant ReadBaseUrl(lines[i..], inside) == ReadBaseUrl(lines, false)
    {
      assert lines[i..][1..] == lines[i + 1..];
      var trimmed := Trim(lines[i]);
      if trimmed == PROVIDER_BEGIN {
        inside := true;
        continue;
      }
      if inside && trimmed == PROVIDER_END { return None; }
      if !inside || !MatchesPrefix(Assignment(Word("base_url")), lines[i]) { continue; }
      return ParseAssignmentString(lines[i]);
    }
    return None;
  }

  // ---------- attaching and detaching ----------

  function ModelProviderLine(value: string): string {
    "model_provider = " + TomlString(value)
  }

  function PreviousLine(value: string): string {
    "# previous_model_provider = " + TomlString(value)
  }

  /** The lines between the markers of the root block. */
  function RootInner(now: string, version: string, port: nat, prev: Option<string>): Lines {
    ["# attached_at = " + TomlString(now), "# version = " + TomlString(version), "# port = " + Digits(port)]
    + (if prev.Some? then [PreviousLine(prev.value)] else [])
    + [ModelProviderLine("collectivus")]
  }

  function RootBlock(now: string, version: string, port: nat, prev: Option<string>): Lines {
    [ROOT_BEGIN] + RootInner(now, version, port, prev) + [ROOT_END]
  }

  function BaseUrl(port: nat): string {
    "http://127.0.0.1:" + Digits(port) + "/v1"
  }

  /** The lines between the markers of the provider block. */
  function ProviderInner(port: nat): Lines {
    ["[model_providers.collectivus]",
     "name = " + TomlString("Collectivus OpenAI Proxy"),
     "base_url = " + TomlString(BaseUrl(port))]
    + PROVIDER_FLAGS
  }

  const PROVIDER_FLAGS: Lines :=
    ["requires_openai_auth = true", "wire_api = \"responses\"", "supports_websockets = false"]

  function ProviderBlock(port: nat): Lines {
    [PROVIDER_BEGIN] + ProviderInner(port) + [PROVIDER_END]
  }

  /** The lines without managed blocks; None when a block is not terminated. */
  function Unmarked(lines: Lines): Option<Lines> {
    var a := RemoveMarked(lines, ROOT_BEGIN, ROOT_END);
    if a.None? then None else RemoveMarked(a.value, PROVIDER_BEGIN, PROVIDER_END)
  }

  /** What attaching keeps of the user's own lines. */
  function Kept(g: Grammar, lines: Lines): Lines {
    var root := RemoveRoot(g, lines, NextTable(g, lines, None), None);
    AssignmentFilter(g, SectionFilter(g, root, false, None), Root, None, false)
  }

  function Spacer(lines: Lines): Lines {
    if lines != [] && lines[|lines| - 1] != "" then [""] else []
  }

  /** The file with both blocks in place. */
  function WithBlocks(g: Grammar, kept: Lines, root: Lines, provider: Lines): Lines {
    var lines := InsertRoot(g, kept, root);
    lines + Spacer(lines) + provider
  }

  datatype Attachment = Attachment(content: string, prevValue: Option<string>)

  function Attach(g: Grammar, content: string, now: string, version: string, port: nat): Option<Attachment> {
    var lines := SplitLines(content);
    var own := Unmarked(lines);
    if own.None? then None
    else
      var removed := RemovedValue(g, own.value, NextTable(g, own.value, None), None);
      var prev := if removed.Some? then removed else ReadPrevious(lines, false);
      Some(Attachment(FormatLines(WithBlocks(g, Kept(g, own.value), RootBlock(now, version, port, prev),
        ProviderBlock(port))), prev))
  }

  method InsertBlocks(g: Grammar, kept: Lines, root: Lines, provider: Lines) returns (lines: Lines)
    ensures lines == WithBlocks(g, kept, root, provider)
  {
    lines := InsertRootLines(g, kept, root);
    if |lines| > 0 && lines[|lines| - 1] != "" {
      Assoc(lines, [""], provider);
      lines := lines + [""];
    } else {
      assert lines + [] == lines;
    }
    lines := lines + provider;
  }

  method PrepareAttach(g: Grammar, content: string, now: string, version: string, port: nat)
      returns (r: Option<Attachment>)
    ensures r == Attach(g, content, now, version, port)
  {
    var lines := SplitLines(content);
    var previousFromMarker := ReadPreviousModelProvider(lines);
    var unrooted := RemoveMarkedBlock(lines, ROOT_BEGIN, ROOT_END);
    if unrooted.None? { return None; }
    var own := RemoveMarkedBlock(unrooted.value, PROVIDER_BEGIN, PROVIDER_END);
    if own.None? { return None; }
    var next, rootValue := RemoveRootModelProvider(g, own.value);
    next := RemoveProviderTable(g, next);
    next := RemoveProviderDottedAssignments(g, next);
    var prevValue := if rootValue.Some? then rootValue else previousFromMarker;
    next := InsertBlocks(g, next, RootBlock(now, version, port, prevValue), ProviderBlock(port));
    var text := FormatLinesLoop(next);
    r := Some(Attachment(text, prevValue));
  }

  datatype Detachment =
    | Unchanged
    | Changed(content: string, removed: Option<string>, restoredValue: Option<string>, warning: Option<string>)

  function Detach(g: Grammar, content: string): Option<Detachment> {
    var lines := SplitLines(content);
    var hadRoot, hadProvider := HasMarked(lines, ROOT_BEGIN, ROOT_END), HasMarked(lines, PROVIDER_BEGIN, PROVIDER_END);
    if hadRoot.None? || hadProvider.None? then None
    else if !hadRoot.value && !hadProvider.value then Some(Unchanged)
    else
      var own := Unmarked(lines);
      if own.None? then None
      else
        var next := AssignmentFilter(g, SectionFilter(g, own.value, false, None), Root, None, false);
        var previous, removed := ReadPrevious(lines, false), ReadBaseUrl(lines, false);
        var current := RootValue(g, next);
        if previous.None? then Some(Changed(FormatLines(next), removed, None, None))
        else if current.None? then
          Some(Changed(FormatLines(InsertRoot(g, next, [ModelProviderLine(previous.value)])), removed, previous, None))
        else Some(Changed(FormatLines(next), removed, None, if current == previous then None else Some(current.value)))
  }

  /** The warning carries the value left in place. */
  method PrepareDetach(g: Grammar, content: string) returns (r: Option<Detachment>)
    ensures r == Detach(g, content)
  {
    var lines := SplitLines(content);
    var hadRoot := HasMarkedBlock(lines, ROOT_BEGIN, ROOT_END);
    if hadRoot.None? { return None; }
    var hadProvider := HasMarkedBlock(lines, PROVIDER_BEGIN, PROVIDER_END);
    if hadProvider.None? { return None; }
    if !hadRoot.value && !hadProvider.value { return Some(Unchanged); }
    var previous := ReadPreviousModelProvider(lines);
    var removed := ReadManagedProviderBaseUrl(lines);
    var unrooted := RemoveMarkedBlock(lines, ROOT_BEGIN, ROOT_END);
    if unrooted.None? { return None; }
    var own := RemoveMarkedBlock(unrooted.value, PROVIDER_BEGIN, PROVIDER_END);
    if own.None? { return None; }
    var next := RemoveProviderTable(g, own.value);
    next := RemoveProviderDottedAssignments(g, next);
    var restoredValue: Option<string>, warning: Option<string> := None, None;
    if previous.Some? {
      var current := ReadRootModelProvider(g, next);
      if current.None? {
        next := InsertRootLines(g, next, [ModelProviderLine(previous.value)]);
        restoredValue := previous;
      } else if current.value != previous.value {
        warning := current;
      }
    }
    var text := FormatLinesLoop(next);
    r := Some(Changed(text, removed, restoredValue, warning));
  }

  /** Both blocks are there; None is the thrown error. */
  function ManagedAttached(content: string): Option<bool> {
    var lines := SplitLines(content);
    var root := HasMarked(lines, ROOT_BEGIN, ROOT_END);
    if root.None? || !root.value then root else HasMarked(lines, PROVIDER_BEGIN, PROVIDER_END)
  }

  method IsManagedAttached(content: string) returns (r: Option<bool>)
    ensures r == ManagedAttached(content)
  {
    var lines := SplitLines(content);
    r := HasMarkedBlock(lines, ROOT_BEGIN, ROOT_END);
    if r.None? || !r.value { return; }
    r := HasMarkedBlock(lines, PROVIDER_BEGIN, PROVIDER_END);
  }
}
