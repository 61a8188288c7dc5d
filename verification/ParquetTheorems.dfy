/** What the writer's cursor and part files say, over every run. */
module ParquetTheorems {
  import opened Wrappers
  import opened Text
  import opened ParquetWriter

  // ---------- the cursor ----------

  /** Rows counted as flushed although the flush then failed at its cursor. */
  function Overcount(log: seq<Entry>): nat {
    if log == [] then 0
    else Overcount(log[..|log| - 1]) + if log[|log| - 1].CursorFailed? then |log[|log| - 1].rows| else 0
  }

  function BaseSeq(disk: Disk): nat {
    if disk.cursor.Some? && disk.cursor.value.lastSeq.Some? then disk.cursor.value.lastSeq.value else 0
  }

  function BaseCount(disk: Disk): nat {
    if disk.cursor.Some? then disk.cursor.value.flushedCount else 0
  }

  /** The cursor says what the buffer knows; only the retired mark may be older. */
  predicate Current(c: Cursor, b: Buffer) {
    c == Image(b).(retired := c.retired, schemaVersion := c.schemaVersion)
  }

  predicate Fresh(s: System, disk: Disk) {
    s.past == History([], [], []) && s.disk == disk &&
      s.buf == NEW_BUFFER.(queue := s.buf.queue, stopped := s.buf.stopped)
  }

  predicate Counted(s: System, disk: Disk) {
    var b, p := s.buf, s.past;
    if !b.loaded then Fresh(s, disk)
    else
      && b.lastSeq == BaseSeq(disk) + |p.accepted|
      && b.flushedCount == BaseCount(disk) + |p.completed| + Overcount(p.log) +
        (if b.flight.Renamed? then |b.flight.rows| else 0)
      && (p.accepted != [] ==> b.lastUuid == p.accepted[|p.accepted| - 1].uuid && b.startedAt.Some?)
      && (b.flight.Writing? || b.flight.Renamed? ==> b.flight.rows != [])
  }

  /** Once nothing is pending, the cursor written or being written is current. */
  predicate Named(s: System) {
    var b := s.buf;
    b.loaded && b.pending == [] && s.past.accepted != [] ==>
      && (b.flight.Renamed? || b.flight.CursorOnly? ==> Current(b.flight.image, b))
      && (b.flight.Idle? || b.flight.CursorOnly? ==> s.disk.cursor.Some? && Current(s.disk.cursor.value, b))
  }

  lemma AppendCounted(s: System, disk: Disk, frames: seq<Frame>, now: string)
    requires Counted(s, disk) && Named(s) && Enabled(s, Append(frames, now))
    ensures Counted(Step(s, Append(frames, now)), disk)
    ensures Named(Step(s, Append(frames, now)))
  {
    var rows := Accepted(frames);
    AppendedFields(s.threshold, s.buf, s.disk.cursor, frames, now);
    var n := Step(s, Append(frames, now));
    assert n.past.accepted == s.past.accepted + rows;
    if rows == [] {
      assert n.past.accepted == s.past.accepted;
    } else {
      assert n.past.accepted[|n.past.accepted| - 1] == rows[|rows| - 1];
    }
  }

  lemma LogGrows(log: seq<Entry>, e: Entry)
    ensures Overcount(log + [e]) == Overcount(log) + if e.CursorFailed? then |e.rows| else 0
  {
    assert (log + [e])[..|log|] == log;
  }

  lemma StepCounted(s: System, disk: Disk, ev: Event)
    requires Counted(s, disk) && Named(s)
    ensures Counted(Step(s, ev), disk) && Named(Step(s, ev))
  {
    if Enabled(s, ev) {
      var f := s.buf.flight;
      match ev
      case Append(frames, now) => AppendCounted(s, disk, frames, now);
      case WriteOk => LandCounted(s, disk);
      case WriteFails => FailCounted(s, disk);
      case CursorFails => if f.Renamed? { FailCounted(s, disk); }
      case CursorOk => CursorCounted(s, disk);
      case _ =>
    }
  }

  lemma LandCounted(s: System, disk: Disk)
    requires Counted(s, disk) && Named(s) && s.buf.flight.Writing?
    ensures Counted(Step(s, WriteOk), disk) && Named(Step(s, WriteOk))
  {
    var f := s.buf.flight;
    LogGrows(s.past.log, Landed(Name(f.date, f.counter), f.rows));
  }

  lemma FailCounted(s: System, disk: Disk)
    requires Counted(s, disk) && Named(s) && (s.buf.flight.Writing? || s.buf.flight.Renamed?)
    ensures var n := Step(s, if s.buf.flight.Writing? then WriteFails else CursorFails); Counted(n, disk) && Named(n)
  {
    var f := s.buf.flight;
    LogGrows(s.past.log, if f.Writing? then WriteFailed(f.date) else CursorFailed(f.date, f.rows));
  }

  lemma CursorCounted(s: System, disk: Disk)
    requires Counted(s, disk) && Named(s) && Enabled(s, CursorOk)
    ensures Counted(Step(s, CursorOk), disk) && Named(Step(s, CursorOk))
  {
  }

  lemma {:induction false} RunCounted(s: System, disk: Disk, evs: seq<Event>)
    requires Counted(s, disk) && Named(s)
    ensures Counted(Run(s, evs), disk) && Named(Run(s, evs))
    decreases |evs|
  {
    if evs != [] {
      StepCounted(s, disk, evs[0]);
      RunCounted(Step(s, evs[0]), disk, evs[1..]);
    }
  }

  /** Whenever the writer is at rest, after any run with any failures: every accepted row is flushed, the cursor names
      the last of them and numbers it rightly, and its count is too large by exactly the rows whose cursor write
      failed. */
  lemma AtRest(threshold: nat, disk: Disk, evs: seq<Event>)
    ensures var s := Run(Start(threshold, disk), evs);
            var all := s.past.accepted;
            s.buf.flight.Idle? && s.buf.pending == [] && all != [] ==>
              && s.past.completed == all
              && s.disk.cursor.Some? && s.disk.cursor.value.lastUuid == all[|all| - 1].uuid
              && s.disk.cursor.value.lastSeq == Some(BaseSeq(disk) + |all|)
              && s.disk.cursor.value.flushedCount == BaseCount(disk) + |all| + Overcount(s.past.log)
  {
    var s := Run(Start(threshold, disk), evs);
    RunCounted(Start(threshold, disk), disk, evs);
    Conservation(threshold, disk, evs);
    if s.buf.flight.Idle? && s.buf.pending == [] {
      assert s.past.completed + [] + [] == s.past.completed;
    }
  }

  /** From rest with rows pending and a flush queued, a flush that succeeds brings the writer back to rest. */
  lemma FlushReaches(s: System, date: string)
    requires s.buf.flight.Idle? && s.buf.queue > 0 && s.buf.pending != []
    ensures var n := Run(s, [Begin(date), WriteOk, CursorOk]);
            n.buf.flight.Idle? && n.buf.pending == [] && n.past.completed == s.past.completed + s.buf.pending
  {
    var evs := [Begin(date), WriteOk, CursorOk];
    assert evs[1..] == [WriteOk, CursorOk] && [WriteOk, CursorOk][1..] == [CursorOk] && [CursorOk][1..] == [];
    var a := Step(s, Begin(date));
    var b := Step(a, WriteOk);
    assert Run(s, evs) == Run(a, [WriteOk, CursorOk]) == Run(b, [CursorOk]) == Run(Step(b, CursorOk), []);
  }

  function LastUuid(rows: seq<Row>): Option<string>
    requires rows != []
  {
    rows[|rows| - 1].uuid
  }

  /** The cursor composed when a file lands names that file's last row exactly when nothing was accepted meanwhile, or
      the last row accepted carries the same uuid. */
  lemma CursorNamesFileIff(threshold: nat, disk: Disk, evs: seq<Event>)
    ensures var s := Run(Start(threshold, disk), evs);
            s.buf.flight.Writing? ==>
              && s.buf.flight.rows != []
              && (Step(s, WriteOk).buf.flight.image.lastUuid == LastUuid(s.buf.flight.rows) <==>
                  s.buf.pending == [] || LastUuid(s.buf.pending) == LastUuid(s.buf.flight.rows))
  {
    var s := Run(Start(threshold, disk), evs);
    RunCounted(Start(threshold, disk), disk, evs);
    Conservation(threshold, disk, evs);
    if s.buf.flight.Writing? {
      var rows, pending := s.buf.flight.rows, s.buf.pending;
      var all := s.past.completed + rows + pending;
      assert pending == [] ==> all[|all| - 1] == rows[|rows| - 1];
      assert pending != [] ==> all[|all| - 1] == pending[|pending| - 1];
    }
  }

  // ---------- file names ----------

  /** Flushes of the day that landed since its last failure. */
  function Streak(log: seq<Entry>, date: string): nat {
    if log == [] then 0
    else NextStreak(Streak(log[..|log| - 1], date), log[|log| - 1], date)
  }

  function NextStreak(streak: nat, e: Entry, date: string): nat {
    if e.Landed? then if e.name.date == date then streak + 1 else streak
    else if e.date == date then 0
    else streak
  }

  /** The longest such streak at any time. */
  function Longest(log: seq<Entry>, date: string): nat {
    if log == [] then 0 else Max(Longest(log[..|log| - 1], date), Streak(log, date))
  }

  /** The files, one landed flush after another. */
  function Replay(files: map<Name, seq<Row>>, log: seq<Entry>): map<Name, seq<Row>> {
    if log == [] then files
    else
      var before, e := Replay(files, log[..|log| - 1]), log[|log| - 1];
      if e.Landed? then before[e.name := e.rows] else before
  }

  ghost predicate Numbered(s: System, disk: Disk) {
    && (forall d :: CounterFor(s.buf, d) == Streak(s.past.log, d))
    && (s.buf.flight.Writing? ==> s.buf.flight.counter == CounterFor(s.buf, s.buf.flight.date))
    && s.disk.files == Replay(disk.files, s.past.log)
    && (forall n: Name :: n in s.disk.files <==> n in disk.files || n.counter < Longest(s.past.log, n.date))
  }

  lemma LogNumbers(log: seq<Entry>, e: Entry, files: map<Name, seq<Row>>)
    ensures forall d :: Streak(log + [e], d) == NextStreak(Streak(log, d), e, d)
    ensures forall d :: Longest(log + [e], d) == Max(Longest(log, d), Streak(log + [e], d))
    ensures Replay(files, log + [e]) == if e.Landed? then Replay(files, log)[e.name := e.rows] else Replay(files, log)
  {
    assert (log + [e])[..|log|] == log;
  }

  lemma {:induction false} StreakBelow(log: seq<Entry>, date: string)
    ensures Streak(log, date) <= Longest(log, date)
  {
  }

  lemma StepNumbered(s: System, disk: Disk, ev: Event)
    requires Numbered(s, disk)
    ensures Numbered(Step(s, ev), disk)
  {
    if Enabled(s, ev) {
      var f, log := s.buf.flight, s.past.log;
      match ev
      case Append(frames, now) =>
        AppendedFields(s.threshold, s.buf, s.disk.cursor, frames, now);
        assert Step(s, ev).buf.flight == s.buf.flight;
        assert forall d :: CounterFor(Step(s, ev).buf, d) == CounterFor(s.buf, d);
      case WriteOk => LandNumbered(s, disk);
      case WriteFails => FailNumbered(s, disk, WriteFailed(f.date));
      case CursorFails => if f.Renamed? { FailNumbered(s, disk, CursorFailed(f.date, f.rows)); }
      case _ => assert forall d :: CounterFor(Step(s, ev).buf, d) == CounterFor(s.buf, d);
    }
  }

  lemma LandNumbered(s: System, disk: Disk)
    requires Numbered(s, disk) && s.buf.flight.Writing?
    ensures Numbered(Step(s, WriteOk), disk)
  {
    var f, log, n := s.buf.flight, s.past.log, Step(s, WriteOk);
    var name := Name(f.date, f.counter);
    LogNumbers(log, Landed(name, f.rows), disk.files);
    assert forall d :: CounterFor(n.buf, d) == if d == f.date then f.counter + 1 else CounterFor(s.buf, d);
    StreakBelow(log, f.date);
    forall x: Name ensures x in n.disk.files <==> x in disk.files || x.counter < Longest(n.past.log, x.date) {
      assert x in n.disk.files <==> x == name || x in s.disk.files;
    }
  }

  lemma FailNumbered(s: System, disk: Disk, e: Entry)
    requires Numbered(s, disk)
    requires (s.buf.flight.Writing? && e == WriteFailed(s.buf.flight.date)) ||
      (s.buf.flight.Renamed? && e == CursorFailed(s.buf.flight.date, s.buf.flight.rows))
    ensures Numbered(Step(s, if s.buf.flight.Writing? then WriteFails else CursorFails), disk)
  {
    var n := Step(s, if s.buf.flight.Writing? then WriteFails else CursorFails);
    LogNumbers(s.past.log, e, disk.files);
    assert forall d :: CounterFor(n.buf, d) == if d == s.buf.flight.date then 0 else CounterFor(s.buf, d);
  }

  lemma {:induction false} RunNumbered(s: System, disk: Disk, evs: seq<Event>)
    requires Numbered(s, disk)
    ensures Numbered(Run(s, evs), disk)
    decreases |evs|
  {
    if evs != [] {
      StepNumbered(s, disk, evs[0]);
      RunNumbered(Step(s, evs[0]), disk, evs[1..]);
    }
  }

  /** Whatever files the process started with, a flush is about to overwrite one exactly when its number is taken from
      before the start, or the day has seen a longer streak of landed flushes than the one since its last failure. */
  lemma OverwritesIff(threshold: nat, disk: Disk, evs: seq<Event>)
    ensures var s := Run(Start(threshold, disk), evs);
            s.buf.flight.Writing? ==>
              var date, log := s.buf.flight.date, s.past.log;
              && s.buf.flight.counter == Streak(log, date)
              && (Name(date, s.buf.flight.counter) in s.disk.files <==>
                  Name(date, Streak(log, date)) in disk.files || Streak(log, date) < Longest(log, date))
  {
    RunNumbered(Start(threshold, disk), disk, evs);
  }

  // ---------- runs without failures ----------

  predicate Clean(log: seq<Entry>) {
    forall k :: 0 <= k < |log| ==> log[k].Landed?
  }

  lemma {:induction false} CleanNumbers(log: seq<Entry>, date: string)
    requires Clean(log)
    ensures Streak(log, date) == Longest(log, date)
  {
    if log != [] { CleanNumbers(log[..|log| - 1], date); }
  }

  function LandedRows(log: seq<Entry>): seq<Row> {
    if log == [] then []
    else LandedRows(log[..|log| - 1]) + if log[|log| - 1].Landed? then log[|log| - 1].rows else []
  }

  /** In a run without failures the landed rows are those of completed flushes and of the one whose cursor is being
      written. */
  predicate AllLanded(s: System) {
    Clean(s.past.log) ==> LandedRows(s.past.log) == s.past.completed + if s.buf.flight.Renamed?
      then s.buf.flight.rows else []
  }

  lemma StepLanded(s: System, ev: Event)
    requires AllLanded(s)
    ensures AllLanded(Step(s, ev))
  {
    if Enabled(s, ev) {
      var f, log, n := s.buf.flight, s.past.log, Step(s, ev);
      assert s.past.completed + [] == s.past.completed && n.past.completed + [] == n.past.completed;
      if n.past.log != log {
        var e := n.past.log[|log|];
        assert n.past.log == log + [e] && n.past.log[..|log|] == log;
        assert Clean(n.past.log) ==> Clean(log) && n.past.log[|log|].Landed?;
      } else if ev.Append? {
        AppendedFields(s.threshold, s.buf, s.disk.cursor, ev.frames, ev.now);
      }
    }
  }

  lemma {:induction false} RunLanded(s: System, evs: seq<Event>)
    requires AllLanded(s)
    ensures AllLanded(Run(s, evs))
    decreases |evs|
  {
    if evs != [] {
      StepLanded(s, evs[0]);
      RunLanded(Step(s, evs[0]), evs[1..]);
    }
  }

  /** The names of the landed flushes, in a log whose numbers count up: the `k`th entry's number is the streak before
      it. */
  ghost predicate CountsUp(log: seq<Entry>) {
    forall k :: 0 <= k < |log| && log[k].Landed? ==> log[k].name.counter == Streak(log[..k], log[k].name.date)
  }

  lemma {:induction false} CleanGrows(log: seq<Entry>, j: nat, k: nat)
    requires Clean(log) && j < k <= |log|
    ensures Streak(log[..j], log[j].name.date) < Streak(log[..k], log[j].name.date)
    decreases k
  {
    assert log[..k][..k - 1] == log[..k - 1];
    if j < k - 1 {
      CleanGrows(log, j, k - 1);
    }
  }

  lemma StepCountsUp(s: System, disk: Disk, ev: Event)
    requires Numbered(s, disk) && CountsUp(s.past.log)
    ensures CountsUp(Step(s, ev).past.log)
  {
    var log, next := s.past.log, Step(s, ev).past.log;
    if next != log {
      assert next == log + [next[|log|]];
      forall k | 0 <= k < |next| && next[k].Landed?
        ensures next[k].name.counter == Streak(next[..k], next[k].name.date) {
        assert next[..k] == log[..k];
        assert k == |log| ==> next[..k] == log;
      }
    }
  }

  lemma {:induction false} RunCountsUp(s: System, disk: Disk, evs: seq<Event>)
    requires Numbered(s, disk) && CountsUp(s.past.log)
    ensures CountsUp(Run(s, evs).past.log)
    decreases |evs|
  {
    if evs != [] {
      StepNumbered(s, disk, evs[0]);
      StepCountsUp(s, disk, evs[0]);
      RunCountsUp(Step(s, evs[0]), disk, evs[1..]);
    }
  }

  lemma {:induction false} ReplayKeeps(files: map<Name, seq<Row>>, log: seq<Entry>, j: nat)
    requires j < |log| && log[j].Landed?
    requires forall k :: j < k < |log| && log[k].Landed? ==> log[k].name != log[j].name
    ensures log[j].name in Replay(files, log) && Replay(files, log)[log[j].name] == log[j].rows
    decreases |log|
  {
    var front := log[..|log| - 1];
    if j < |log| - 1 {
      assert front[j] == log[j];
      ReplayKeeps(files, front, j);
    }
  }

  /** In a process without failed writes no file is overwritten: the files hold every flush that landed, and together,
      in order, the rows of all completed flushes and of the one whose cursor is being written. */
  lemma CleanRun(threshold: nat, disk: Disk, evs: seq<Event>)
    requires Clean(Run(Start(threshold, disk), evs).past.log)
    ensures var s := Run(Start(threshold, disk), evs);
            var log := s.past.log;
            && LandedRows(log) == s.past.completed + (if s.buf.flight.Renamed? then s.buf.flight.rows else [])
            && (forall j, k :: 0 <= j < k < |log| ==> log[j].name != log[k].name)
            && (forall j :: 0 <= j < |log| ==> log[j].name in s.disk.files && s.disk.files[log[j].name] == log[j].rows)
  {
    var s := Run(Start(threshold, disk), evs);
    var log := s.past.log;
    RunLanded(Start(threshold, disk), evs);
    RunNumbered(Start(threshold, disk), disk, evs);
    RunCountsUp(Start(threshold, disk), disk, evs);
    forall j, k | 0 <= j < k < |log| ensures log[j].name != log[k].name {
      CleanGrows(log, j, k);
      assert log[j].Landed? && log[k].Landed?;
    }
    forall j | 0 <= j < |log| ensures log[j].name in s.disk.files && s.disk.files[log[j].name] == log[j].rows {
      assert log[j].Landed?;
      ReplayKeeps(disk.files, log, j);
    }
  }

  // ---------- what failures and interleaving can do ----------

  function Offer(row: Row, now: string): Event {
    Append([Frame(row, true)], now)
  }

  lemma OfferTakes(s: System, row: Row, now: string)
    requires row.uuid.Some? && row.uuid.value != "" && !s.buf.stopped
    ensures var n := Step(s, Offer(row, now));
            && n.buf.pending == s.buf.pending + [row] && n.buf.lastUuid == row.uuid && n.buf.flight == s.buf.flight &&
              !n.buf.stopped
            && n.buf.counters == s.buf.counters && n.disk == s.disk && n.past.completed == s.past.completed
  {
    var frames := [Frame(row, true)];
    assert frames[1..] == [] && Accepted(frames) == [row];
    AppendedFields(s.threshold, s.buf, s.disk.cursor, frames, now);
  }

  /** A row accepted while a file is being written: the cursor that goes with the file names that row, which is
      pending. */
  lemma CursorRunsAhead(s: System, row: Row, now: string)
    requires s.buf.flight.Writing? && !s.buf.stopped && row.uuid.Some? && row.uuid.value != ""
    ensures var n := Step(Step(Step(s, Offer(row, now)), WriteOk), CursorOk);
            && n.disk.cursor.Some? && n.disk.cursor.value.lastUuid == row.uuid
            && n.disk.files == s.disk.files[Name(s.buf.flight.date, s.buf.flight.counter) := s.buf.flight.rows]
            && n.buf.pending == s.buf.pending + [row]
  {
    OfferTakes(s, row, now);
  }

  /** A flush that fails on a day that has a first file already, and the flush after it: that file is overwritten, while
      its rows stay counted as completed. */
  lemma FailureLosesRows(s: System, row: Row, date: string, now: string)
    requires s.buf.flight.Idle? && s.buf.pending == [] && !s.buf.stopped && row.uuid.Some? && row.uuid.value != ""
    requires Name(date, 0) in s.disk.files
    ensures var failed := Step(Step(Step(Step(s, Offer(row, now)), Schedule), Begin(date)), WriteFails);
            var n := Step(Step(Step(failed, Schedule), Begin(date)), WriteOk);
            n.disk.files == s.disk.files[Name(date, 0) := [row]] && n.past.completed == s.past.completed
  {
    OfferTakes(s, row, now);
    var offered := Step(s, Offer(row, now));
    FailedFlush(offered, date);
    var failed := Step(Step(Step(offered, Schedule), Begin(date)), WriteFails);
    assert [] + [row] == [row] && [row] + [] == [row];
    assert failed.buf.pending == [row] && CounterFor(failed.buf, date) == 0;
  }

  /** A cursor write that fails after its file landed, and the flush after it: the row counts twice. */
  lemma CursorFailureCountsTwice(threshold: nat, disk: Disk, row: Row, date: string, now: string)
    requires row.uuid.Some? && row.uuid.value != ""
    ensures var failed := Step(Step(Step(Step(Step(Start(threshold, disk), Offer(row, now)), Schedule), Begin(date)),
      WriteOk), CursorFails);
            var n := Step(Step(Step(Step(failed, Schedule), Begin(date)), WriteOk), CursorOk);
            && n.past.completed == [row] && n.disk.cursor.Some?
            && n.disk.cursor.value.flushedCount == BaseCount(disk) + 2
  {
    var s := Start(threshold, disk);
    OfferTakes(s, row, now);
    OfferCounts(s, row, now);
    assert [] + [row] == [row];
    var offered := Step(s, Offer(row, now));
    OneFlush(offered, row, date);
    OneFlush(Step(Step(Step(Step(offered, Schedule), Begin(date)), WriteOk), CursorFails), row, date);
  }

  lemma OfferCounts(s: System, row: Row, now: string)
    requires row.uuid.Some? && row.uuid.value != "" && !s.buf.stopped && !s.buf.loaded && s.buf.flushedCount == 0
    ensures Step(s, Offer(row, now)).buf.flushedCount == BaseCount(s.disk)
  {
    AppendedFields(s.threshold, s.buf, s.disk.cursor, [Frame(row, true)], now);
  }

  lemma FlushLands(s: System, row: Row, date: string)
    requires s.buf.flight.Idle? && s.buf.pending == [row] && !s.buf.stopped
    ensures var n := Step(Step(Step(s, Schedule), Begin(date)), WriteOk);
            && n.buf.flight.Renamed? && n.buf.flight.rows == [row] && n.buf.pending == [] && !n.buf.stopped
            && n.buf.flushedCount == s.buf.flushedCount + 1 && n.buf.flight.image.flushedCount == n.buf.flushedCount
            && n.past.completed == s.past.completed
  {
  }

  lemma OneFlush(s: System, row: Row, date: string)
    requires s.buf.flight.Idle? && s.buf.pending == [row] && !s.buf.stopped
    ensures var landed := Step(Step(Step(s, Schedule), Begin(date)), WriteOk);
            var good, bad := Step(landed, CursorOk), Step(landed, CursorFails);
            && good.past.completed == s.past.completed + [row] && good.disk.cursor.Some?
            && good.disk.cursor.value.flushedCount == s.buf.flushedCount + 1
            && bad.past.completed == s.past.completed && bad.buf.flushedCount == s.buf.flushedCount + 1
            && bad.buf.pending == [row] && !bad.buf.stopped && bad.buf.flight.Idle?
  {
    FlushLands(s, row, date);
    assert [row] + [] == [row];
  }

  /** A process that starts on a day with a first file already replaces that file with its own first flush, whatever the
      cursor says and although nothing fails. */
  lemma RestartOverwrites(threshold: nat, disk: Disk, row: Row, date: string, now: string)
    requires row.uuid.Some? && row.uuid.value != "" && Name(date, 0) in disk.files
    ensures var n := Step(Step(Step(Step(Start(threshold, disk), Offer(row, now)), Schedule), Begin(date)), WriteOk);
            n.disk.files == disk.files[Name(date, 0) := [row]] && n.past.log == [Landed(Name(date, 0), [row])]
  {
    var s := Start(threshold, disk);
    OfferTakes(s, row, now);
    assert [] + [row] == [row];
    var offered := Step(s, Offer(row, now));
    assert offered.buf.pending == [row] && CounterFor(offered.buf, date) == 0 && offered.past.log == [];
  }

  lemma FailedFlush(s: System, date: string)
    requires s.buf.flight.Idle? && s.buf.pending != [] && !s.buf.stopped
    ensures var n := Step(Step(Step(s, Schedule), Begin(date)), WriteFails);
            && n.buf.flight.Idle? && n.buf.pending == s.buf.pending && n.disk == s.disk &&
              n.past.completed == s.past.completed
            && !n.buf.stopped && date !in n.buf.counters
  {
    assert s.buf.pending + [] == s.buf.pending;
  }
}
