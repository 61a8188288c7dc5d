/** The other fields of the writer's cursor, what a row must have to be accepted, and when rows are flushed. */
module ParquetCursor {
  import opened Wrappers
  import opened Text
  import opened ParquetWriter
  import opened ParquetTheorems

  // ---------- what is accepted ----------

  /** A row is accepted exactly when it has a uuid, not the empty one, that was not seen before. */
  lemma {:induction false} AcceptedSnoc(frames: seq<Frame>, f: Frame)
    ensures (exists uuid :: f.row.uuid == Some(uuid) && uuid != "" && f.unseen) ==>
              Accepted(frames + [f]) == Accepted(frames) + [f.row]
    ensures !(exists uuid :: f.row.uuid == Some(uuid) && uuid != "" && f.unseen) ==>
              Accepted(frames + [f]) == Accepted(frames)
    decreases |frames|
  {
    if frames == [] {
      assert frames + [f] == [f] && [f][1..] == [];
    } else {
      assert (frames + [f])[1..] == frames[1..] + [f];
      AcceptedSnoc(frames[1..], f);
    }
  }

  // ---------- what happened in a run ----------

  predicate Stops(evs: seq<Event>) {
    exists k :: 0 <= k < |evs| && evs[k].Stop?
  }

  /** The time of the first append with rows, unless the writer stopped before. */
  function FirstAppend(evs: seq<Event>): Option<string> {
    if evs == [] then None
    else
      var front, ev := evs[..|evs| - 1], evs[|evs| - 1];
      if FirstAppend(front).Some? then FirstAppend(front)
      else if ev.Append? && ev.frames != [] && !Stops(front) then Some(ev.now) else None
  }

  predicate Retires(evs: seq<Event>) {
    exists k :: 0 <= k < |evs| && evs[k].Retire? && !Stops(evs[..k])
  }

  /** The last time stamp among the rows, or the one before them. */
  function LastStamp(before: Option<string>, rows: seq<Row>): Option<string> {
    if rows == [] then before
    else if rows[|rows| - 1].timestamp.Some? then rows[|rows| - 1].timestamp
    else LastStamp(before, rows[..|rows| - 1])
  }

  function Base<T>(disk: Disk, field: Cursor -> Option<T>): Option<T> {
    if disk.cursor.Some? then field(disk.cursor.value) else None
  }

  /** The buffer knows what the cursor said at the start and what happened since. */
  predicate Knows(s: System, disk: Disk, evs: seq<Event>) {
    var b := s.buf;
    && b.stopped == Stops(evs) && (b.loaded <==> FirstAppend(evs).Some? || Retires(evs))
    && (!b.loaded ==> Fresh(s, disk))
    && (b.loaded ==>
          && b.lastTimestamp == LastStamp(Base(disk, (c: Cursor) => c.lastTimestamp), s.past.accepted)
          && b.startedAt == OrElse(Base(disk, (c: Cursor) => c.startedAt), FirstAppend(evs))
          && b.retired == ((disk.cursor.Some? && disk.cursor.value.retired) || Retires(evs)))
  }

  lemma StopsSnoc(evs: seq<Event>, ev: Event)
    ensures Stops(evs + [ev]) <==> Stops(evs) || ev.Stop?
  {
    var all := evs + [ev];
    assert all[|evs|] == ev;
    if k :| 0 <= k < |evs| && evs[k].Stop? { assert all[k].Stop?; }
  }

  lemma RetiresSnoc(evs: seq<Event>, ev: Event)
    ensures Retires(evs + [ev]) <==> Retires(evs) || (ev.Retire? && !Stops(evs))
  {
    var all := evs + [ev];
    assert all[|evs|] == ev && all[..|evs|] == evs;
    forall k | 0 <= k < |evs| ensures all[k] == evs[k] && all[..k] == evs[..k] { }
    if k :| 0 <= k < |evs| && evs[k].Retire? && !Stops(evs[..k]) { assert all[k].Retire? && !Stops(all[..k]); }
  }

  lemma {:induction false} StampAppend(before: Option<string>, a: seq<Row>, b: seq<Row>)
    ensures LastStamp(before, a + b) == LastStamp(LastStamp(before, a), b)
    decreases |b|
  {
    if b == [] {
      assert a + b == a;
    } else {
      var n := |b| - 1;
      assert (a + b)[..|a + b| - 1] == a + b[..n];
      StampAppend(before, a, b[..n]);
    }
  }

  lemma {:induction false} PushedStamp(b: Buffer, rows: seq<Row>)
    ensures var n := PushAll(b, rows);
            n.lastTimestamp == LastStamp(b.lastTimestamp, rows) && n.startedAt == b.startedAt && n.retired == b.retired
    decreases |rows|
  {
    if rows != [] {
      PushedStamp(Push(b, rows[0]), rows[1..]);
      assert rows == [rows[0]] + rows[1..];
      StampAppend(b.lastTimestamp, [rows[0]], rows[1..]);
      assert [rows[0]][..0] == [];
    }
  }

  /** The fields of the buffer after an append. */
  lemma AppendedTimes(threshold: nat, b: Buffer, cursor: Option<Cursor>, frames: seq<Frame>, now: string)
    ensures var l, n, rows := Load(b, cursor), AppendRows(threshold, b, cursor, frames, now), Accepted(frames);
            && n.lastTimestamp == LastStamp(l.lastTimestamp, rows) && n.startedAt == OrElse(l.startedAt, Some(now))
            && n.retired == l.retired
  {
    var l := Load(b, cursor);
    PushedStamp(l.(startedAt := OrElse(l.startedAt, Some(now))), Accepted(frames));
  }

  lemma AppendKnows(s: System, disk: Disk, evs: seq<Event>, ev: Event)
    requires Knows(s, disk, evs) && Counted(s, disk) && ev.Append? && Enabled(s, ev)
    ensures Knows(Step(s, ev), disk, evs + [ev])
  {
    AppendedTimes(s.threshold, s.buf, s.disk.cursor, ev.frames, ev.now);
    AppendedFields(s.threshold, s.buf, s.disk.cursor, ev.frames, ev.now);
    StopsSnoc(evs, ev);
    RetiresSnoc(evs, ev);
    assert (evs + [ev])[..|evs|] == evs;
    AppendedStamps(s, disk, ev);
  }

  lemma AppendedStamps(s: System, disk: Disk, ev: Event)
    requires ev.Append? && Enabled(s, ev) && (!s.buf.loaded ==> Fresh(s, disk))
    requires s.buf.loaded ==>
               s.buf.lastTimestamp == LastStamp(Base(disk, (c: Cursor) => c.lastTimestamp), s.past.accepted)
    ensures LastStamp(Load(s.buf, s.disk.cursor).lastTimestamp, Accepted(ev.frames)) ==
            LastStamp(Base(disk, (c: Cursor) => c.lastTimestamp), Step(s, ev).past.accepted)
  {
    var rows := Accepted(ev.frames);
    StampAppend(Base(disk, (c: Cursor) => c.lastTimestamp), s.past.accepted, rows);
  }

  lemma StepKnows(s: System, disk: Disk, evs: seq<Event>, ev: Event)
    requires Knows(s, disk, evs) && Counted(s, disk)
    ensures Knows(Step(s, ev), disk, evs + [ev])
  {
    StopsSnoc(evs, ev);
    RetiresSnoc(evs, ev);
    assert (evs + [ev])[..|evs|] == evs;
    if ev.Append? && Enabled(s, ev) { AppendKnows(s, disk, evs, ev); }
  }

  lemma {:induction false} RunSnoc(s: System, evs: seq<Event>, ev: Event)
    ensures Run(s, evs + [ev]) == Step(Run(s, evs), ev)
    decreases |evs|
  {
    if evs == [] {
      assert evs + [ev] == [ev] && [ev][1..] == [];
    } else {
      assert (evs + [ev])[1..] == evs[1..] + [ev];
      RunSnoc(Step(s, evs[0]), evs[1..], ev);
    }
  }

  lemma {:induction false} RunKnows(threshold: nat, disk: Disk, evs: seq<Event>)
    ensures Knows(Run(Start(threshold, disk), evs), disk, evs)
    decreases |evs|
  {
    if evs != [] {
      var front, ev := evs[..|evs| - 1], evs[|evs| - 1];
      assert evs == front + [ev];
      RunKnows(threshold, disk, front);
      RunCounted(Start(threshold, disk), disk, front);
      StepKnows(Run(Start(threshold, disk), front), disk, front, ev);
      RunSnoc(Start(threshold, disk), front, ev);
    }
  }

  /** Whenever the writer is at rest, the cursor dates the last row with a time stamp, and keeps the start time it had,
      or that of the first append. */
  lemma CursorDates(threshold: nat, disk: Disk, evs: seq<Event>)
    ensures var s := Run(Start(threshold, disk), evs);
            s.buf.flight.Idle? && s.buf.pending == [] && s.past.accepted != [] ==>
              && s.disk.cursor.Some?
              && s.disk.cursor.value.lastTimestamp ==
                 LastStamp(Base(disk, (c: Cursor) => c.lastTimestamp), s.past.accepted)
              && s.disk.cursor.value.startedAt == OrElse(Base(disk, (c: Cursor) => c.startedAt), FirstAppend(evs))
  {
    RunKnows(threshold, disk, evs);
    RunCounted(Start(threshold, disk), disk, evs);
  }

  // ---------- retiring ----------

  /** A process that starts on any cursor and only retires the session writes the cursor back, marked; a number of zero
      is left out. */
  lemma RetiredCursor(threshold: nat, disk: Disk, date: string)
    requires disk.cursor.Some?
    ensures var c, n := disk.cursor.value, Step(Step(Step(Start(threshold, disk), Retire), Begin(date)), CursorOk);
            n.disk == disk.(cursor := Some(c.(retired := true, lastSeq := if c.lastSeq == Some(0) then None
              else c.lastSeq)))
  {
  }

  /** Without a cursor, a new one. */
  lemma FirstCursor(threshold: nat, disk: Disk, date: string)
    requires disk.cursor.None?
    ensures var n := Step(Step(Step(Start(threshold, disk), Retire), Begin(date)), CursorOk);
            n.disk == disk.(cursor := Some(Cursor(1, true, 0, None, None, None, None)))
  {
  }

  /** Once a session is retired, in this process or an earlier one, every cursor composed says so. */
  lemma StaysRetired(threshold: nat, disk: Disk, evs: seq<Event>)
    requires Retires(evs)
    ensures Image(Run(Start(threshold, disk), evs).buf).retired
  {
    RunKnows(threshold, disk, evs);
  }

  // ---------- when rows are flushed ----------

  /** An append queues a flush exactly when enough rows are pending. */
  lemma ThresholdQueues(s: System, frames: seq<Frame>, now: string)
    requires !s.buf.stopped && frames != []
    ensures var n := Step(s, Append(frames, now));
            n.buf.queue == s.buf.queue + if |s.buf.pending| + |Accepted(frames)| >= s.threshold then 1 else 0
  {
    AppendedFields(s.threshold, s.buf, s.disk.cursor, frames, now);
    PushedQueue(Load(s.buf, s.disk.cursor), Accepted(frames), now);
  }

  lemma PushedQueue(b: Buffer, rows: seq<Row>, now: string)
    ensures PushAll(b.(startedAt := OrElse(b.startedAt, Some(now))), rows).queue == b.queue
  {
    PushAllFields(b.(startedAt := OrElse(b.startedAt, Some(now))), rows);
  }

  /** After a stop nothing is accepted any more, and the pending rows have a flush queued. */
  lemma StopDrains(s: System, date: string, ev: Event)
    requires !s.buf.stopped && s.buf.flight.Idle? && s.buf.pending != [] &&
      (ev.Append? || ev.Schedule? || ev.Retire? || ev.Stop?)
    ensures var n := Step(s, Stop);
            && Step(n, ev) == n
            && Run(n, [Begin(date), WriteOk, CursorOk]).past.completed == s.past.completed + s.buf.pending
  {
    FlushReaches(Step(s, Stop), date);
  }

  // ---------- the queue of flushes ----------

  /** Every request for a flush queues one, and every flush that starts takes one. */
  lemma QueueSteps(s: System, date: string)
    ensures !s.buf.stopped ==>
              Step(s, Schedule).buf.queue == s.buf.queue + 1 && Step(s, Retire).buf.queue == s.buf.queue + 1
    ensures !s.buf.stopped ==> Step(s, Stop).buf.queue == s.buf.queue + 1
    ensures s.buf.flight.Idle? && s.buf.queue > 0 ==> Step(s, Begin(date)).buf.queue == s.buf.queue - 1
  {
  }

  // ---------- the schema version ----------

  /** Once rows of this process are in a file, every cursor carries the version they are written in. */
  predicate Versioned(s: System) {
    && (s.past.completed != [] || s.buf.flight.Renamed? ==> s.buf.schemaOnDisk == Some(SCHEMA_VERSION) && s.buf.loaded)
    && (s.buf.flight.Renamed? ==> s.buf.flight.image.schemaVersion == SCHEMA_VERSION)
    && (s.past.completed != [] ==> s.disk.cursor.Some? && s.disk.cursor.value.schemaVersion == SCHEMA_VERSION)
    && (s.past.completed != [] && s.buf.flight.CursorOnly? ==> s.buf.flight.image.schemaVersion == SCHEMA_VERSION)
    && (s.buf.flight.Writing? ==> s.buf.loaded) && (s.buf.pending != [] ==> s.buf.loaded)
  }

  lemma {:induction false} PushedVersion(b: Buffer, rows: seq<Row>)
    ensures PushAll(b, rows).schemaOnDisk == b.schemaOnDisk && PushAll(b, rows).loaded == b.loaded
    decreases |rows|
  {
    if rows != [] { PushedVersion(Push(b, rows[0]), rows[1..]); }
  }

  lemma StepVersioned(s: System, ev: Event)
    requires Versioned(s)
    ensures Versioned(Step(s, ev))
  {
    if ev.Append? && Enabled(s, ev) {
      var l := Load(s.buf, s.disk.cursor);
      PushedVersion(l.(startedAt := OrElse(l.startedAt, Some(ev.now))), Accepted(ev.frames));
      AppendedFields(s.threshold, s.buf, s.disk.cursor, ev.frames, ev.now);
    }
  }

  lemma {:induction false} RunVersioned(s: System, evs: seq<Event>)
    requires Versioned(s)
    ensures Versioned(Run(s, evs))
    decreases |evs|
  {
    if evs != [] {
      StepVersioned(s, evs[0]);
      RunVersioned(Step(s, evs[0]), evs[1..]);
    }
  }

  /** In every run, once a flush is complete the cursor on disk has the current schema version. */
  lemma CursorVersion(threshold: nat, disk: Disk, evs: seq<Event>)
    ensures var s := Run(Start(threshold, disk), evs);
            s.past.completed != [] ==> s.disk.cursor.Some? && s.disk.cursor.value.schemaVersion == 1
  {
    RunVersioned(Start(threshold, disk), evs);
  }
}
