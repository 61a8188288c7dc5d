/** How the text of a file becomes lines, whatever ends them, and that the Codex editor looks at nothing else. */
module CodexTomlFiles {
  import opened Wrappers
  import opened Text
  import opened TomlText
  import opened CodexToml
  import opened CodexTomlLines

  datatype End = Lf | CrLf | Cr

  function EndText(e: End): string {
    match e
    case Lf => "\n"
    case CrLf => "\r\n"
    case Cr => "\r"
  }

  /** The lines of a file from the `k`th on, each with its end, and an unfinished last line. */
  function FileText(lines: Lines, ends: nat -> End, last: string, k: nat): string
    requires k <= |lines|
    decreases |lines| - k
  {
    if k == |lines| then last else lines[k] + EndText(ends(k)) + FileText(lines, ends, last, k + 1)
  }

  /** A lone CR and the LF of an empty line: together they read as one line end. */
  predicate Merges(lines: Lines, ends: nat -> End, k: nat) {
    k + 1 < |lines| && ends(k) == Cr && lines[k + 1] == "" && ends(k + 1) == Lf
  }

  /** The lines with every such pair counted once. */
  function Merged(lines: Lines, ends: nat -> End, k: nat): Lines
    requires k <= |lines|
    decreases |lines| - k
  {
    if k == |lines| then []
    else if Merges(lines, ends, k) then [lines[k]] + Merged(lines, ends, k + 2)
    else [lines[k]] + Merged(lines, ends, k + 1)
  }

  lemma {:induction false} MergedIff(lines: Lines, ends: nat -> End, k: nat)
    requires k <= |lines|
    ensures |Merged(lines, ends, k)| <= |lines| - k
    ensures |Merged(lines, ends, k)| == |lines| - k <==> forall j: nat :: k <= j ==> !Merges(lines, ends, j)
    ensures |Merged(lines, ends, k)| == |lines| - k ==> Merged(lines, ends, k) == lines[k..]
    decreases |lines| - k
  {
    if k < |lines| {
      if Merges(lines, ends, k) {
        MergedIff(lines, ends, k + 2);
      } else {
        MergedIff(lines, ends, k + 1);
      }
    }
  }

  // ---------- from text to lines ----------

  lemma {:induction false} NormalizedEnded(line: string, e: End, rest: string)
    requires PlainLine(line) && (e.Cr? ==> rest == "" || rest[0] != '\n')
    ensures Normalized(line + EndText(e) + rest) == line + "\n" + Normalized(rest)
    decreases |line|
  {
    var s := line + EndText(e) + rest;
    if line == "" {
      assert s == EndText(e) + rest && s[|EndText(e)|..] == rest;
      assert Normalized(s) == "\n" + Normalized(rest);
    } else {
      NormalizedEnded(line[1..], e, rest);
      assert s[0] == line[0] && s[1..] == line[1..] + EndText(e) + rest;
      assert [line[0]] + (line[1..] + "\n" + Normalized(rest)) == line + "\n" + Normalized(rest);
    }
  }

  /** What follows a line does not begin with LF, but for an empty line ended by one. */
  lemma TextStarts(lines: Lines, ends: nat -> End, last: string, k: nat)
    requires PlainLines(lines) && PlainLine(last) && k <= |lines|
    ensures var s := FileText(lines, ends, last, k);
            s != "" && s[0] == '\n' ==> k < |lines| && lines[k] == "" && ends(k).Lf?
  {
    if k < |lines| { assert lines[k] in lines; }
  }

  lemma SplitAfter(line: string, rest: string)
    requires PlainLine(line)
    ensures SplitChar(line + "\n" + rest, '\n') == [line] + SplitChar(rest, '\n')
  {
    var s := line + ['\n'] + rest;
    IndexOfCharUnique(line, '\n', rest);
    assert s[..|line|] == line && s[|line| + 1..] == rest;
  }

  lemma {:induction false} SplitText(lines: Lines, ends: nat -> End, last: string, k: nat)
    requires PlainLines(lines) && PlainLine(last) && k <= |lines|
    ensures SplitChar(Normalized(FileText(lines, ends, last, k)), '\n') == Merged(lines, ends, k) + [last]
    ensures Normalized(FileText(lines, ends, last, k)) == "" ==> last == "" && Merged(lines, ends, k) == []
    decreases |lines| - k
  {
    if k == |lines| {
      assert '\r' !in last && '\n' !in last;
      NormalizedIdentity(last);
    } else {
      assert lines[k] in lines;
      var i := if Merges(lines, ends, k) then k + 2 else k + 1;
      var rest := FileText(lines, ends, last, i);
      SplitText(lines, ends, last, i);
      TextAsLine(lines, ends, last, k);
      SplitAfter(lines[k], Normalized(rest));
      Assoc([lines[k]], Merged(lines, ends, i), [last]);
    }
  }

  lemma TextAsLine(lines: Lines, ends: nat -> End, last: string, k: nat)
    requires PlainLines(lines) && PlainLine(last) && k < |lines|
    ensures var i := if Merges(lines, ends, k) then k + 2 else k + 1;
            Normalized(FileText(lines, ends, last, k)) == lines[k] + "\n" + Normalized(FileText(lines, ends, last, i))
  {
    assert lines[k] in lines;
    if Merges(lines, ends, k) {
      MergedText(lines, ends, last, k);
      NormalizedEnded(lines[k], CrLf, FileText(lines, ends, last, k + 2));
    } else {
      TextStarts(lines, ends, last, k + 1);
      NormalizedEnded(lines[k], ends(k), FileText(lines, ends, last, k + 1));
    }
  }

  lemma MergedText(lines: Lines, ends: nat -> End, last: string, k: nat)
    requires k < |lines| && Merges(lines, ends, k)
    ensures FileText(lines, ends, last, k) == lines[k] + EndText(CrLf) + FileText(lines, ends, last, k + 2)
  {
    var rest := FileText(lines, ends, last, k + 2);
    assert FileText(lines, ends, last, k + 1) == "\n" + rest;
    Assoc(lines[k], "\r", "\n");
    Assoc(lines[k] + "\r", "\n", rest);
    assert "\r" + "\n" == "\r\n";
  }

  /** A file splits into its lines, whatever ends them, exactly when no lone CR stands before the LF of an empty
      line. */
  lemma LinesComeBackIff(lines: Lines, ends: nat -> End, last: string)
    requires PlainLines(lines) && PlainLine(last)
    ensures var all := lines + if last == "" then [] else [last];
            SplitLines(FileText(lines, ends, last, 0)) == all <==> forall k: nat :: !Merges(lines, ends, k)
  {
    SplitText(lines, ends, last, 0);
    MergedIff(lines, ends, 0);
    var merged := Merged(lines, ends, 0);
    assert (merged + [last])[|merged|] == last && (merged + [last])[..|merged|] == merged;
    assert merged + [] == merged && lines + [] == lines;
    assert lines[0..] == lines;
    if forall k: nat :: !Merges(lines, ends, k) {
      assert merged == lines;
    } else {
      assert |merged| < |lines|;
    }
  }

  /** Attach, detach and the managed check answer alike for files of the same lines, whatever ends the lines. */
  lemma LineEndsDoNotMatter(g: Grammar, lines: Lines, last: string, a: nat -> End, b: nat -> End, now: string,
      version: string, port: nat)
    requires PlainLines(lines) && PlainLine(last)
    requires forall k: nat :: !Merges(lines, a, k) && !Merges(lines, b, k)
    ensures var s, t := FileText(lines, a, last, 0), FileText(lines, b, last, 0);
            && Attach(g, s, now, version, port) == Attach(g, t, now, version, port)
            && Detach(g, s) == Detach(g, t) && ManagedAttached(s) == ManagedAttached(t)
  {
    LinesComeBackIff(lines, a, last);
    LinesComeBackIff(lines, b, last);
    SameLines(g, FileText(lines, a, last, 0), FileText(lines, b, last, 0), now, version, port);
  }

  lemma SameLines(g: Grammar, s: string, t: string, now: string, version: string, port: nat)
    requires SplitLines(s) == SplitLines(t)
    ensures Attach(g, s, now, version, port) == Attach(g, t, now, version, port)
    ensures Detach(g, s) == Detach(g, t) && ManagedAttached(s) == ManagedAttached(t)
  {
    SameAttach(g, s, t, now, version, port);
    SameDetach(g, s, t);
    SameManaged(s, t);
  }

  lemma SameAttach(g: Grammar, s: string, t: string, now: string, version: string, port: nat)
    requires SplitLines(s) == SplitLines(t)
    ensures Attach(g, s, now, version, port) == Attach(g, t, now, version, port)
  {
  }

  lemma SameDetach(g: Grammar, s: string, t: string)
    requires SplitLines(s) == SplitLines(t)
    ensures Detach(g, s) == Detach(g, t)
  {
  }

  lemma SameManaged(s: string, t: string)
    requires SplitLines(s) == SplitLines(t)
    ensures ManagedAttached(s) == ManagedAttached(t)
  {
  }

  // ---------- from lines to text ----------

  lemma {:induction false} UnixText(lines: Lines, k: nat)
    requires k <= |lines|
    ensures FileText(lines, _ => Lf, "", k) == if k == |lines| then "" else Join(lines[k..], "\n") + "\n"
    decreases |lines| - k
  {
    if k < |lines| {
      UnixText(lines, k + 1);
      var tail := lines[k..];
      assert tail[0] == lines[k] && tail[1..] == lines[k + 1..];
      if k + 1 < |lines| { Assoc(lines[k] + "\n", Join(lines[k + 1..], "\n"), "\n"); }
    }
  }

  /** What is written: the lines between the blank ones at either end, each ended by LF. */
  lemma FormattedText(before: Lines, lines: Lines, after: Lines)
    requires AllBlank(before) && AllBlank(after)
    requires lines != [] ==> lines[0] != "" && lines[|lines| - 1] != ""
    ensures FormatLines(before + lines + after) == FileText(lines, _ => Lf, "", 0)
  {
    FormatTrims(before, lines, after);
    UnixText(lines, 0);
    assert lines[0..] == lines;
  }
}
