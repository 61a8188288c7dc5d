/**
 The buffer, flush and cursor protocol of one session, after src/gascity/parquet_writer.js. Code between two awaits is
 one step; writing and renaming a file is a step that may fail. Deduplication is an oracle, clocks are arguments.
 */
module ParquetWriter {
  import opened Wrappers

  datatype Row = Row(uuid: Option<string>, timestamp: Option<string>, body: string)

  /** A row offered to the writer, and whether the deduplication set calls it new. */
  datatype Frame = Frame(row: Row, unseen: bool)

  const SCHEMA_VERSION := 1

  datatype Cursor = Cursor(
    schemaVersion: nat, retired: bool, flushedCount: nat, lastUuid: Option<string>, lastSeq: Option<nat>,
    lastTimestamp: Option<string>, startedAt: Option<string>)

  /** The flush under way: encoding and writing its rows; its file renamed and the cursor being written; or only a
      cursor. */
  datatype Flight =
    | Idle
    | Writing(rows: seq<Row>, date: string, counter: nat)
    | Renamed(rows: seq<Row>, date: string, image: Cursor)
    | CursorOnly(image: Cursor)

  datatype Buffer = Buffer(
    pending: seq<Row>, lastUuid: Option<string>, lastSeq: nat, lastTimestamp: Option<string>, flushedCount: nat,
    retired: bool, startedAt: Option<string>, schemaOnDisk: Option<nat>, loaded: bool, counters: map<string, nat>,
    queue: nat, flight: Flight, stopped: bool)

  const NEW_BUFFER := Buffer([], None, 0, None, 0, false, None, None, false, map[], 0, Idle, false)

  /** A part file of the session. */
  datatype Name = Name(date: string, counter: nat)

  datatype Disk = Disk(files: map<Name, seq<Row>>, cursor: Option<Cursor>)

  datatype Entry = Landed(name: Name, rows: seq<Row>) | WriteFailed(date: string) | CursorFailed(date: string,
      rows: seq<Row>)

  /** What happened so far: rows accepted, rows of completed flushes, and how the flushes went. */
  datatype History = History(accepted: seq<Row>, completed: seq<Row>, log: seq<Entry>)

  datatype System = System(threshold: nat, buf: Buffer, disk: Disk, past: History)

  function Start(threshold: nat, disk: Disk): System {
    System(threshold, NEW_BUFFER, disk, History([], [], []))
  }

  function OrElse<T>(a: Option<T>, b: Option<T>): Option<T> {
    if a.Some? then a else b
  }

  // ---------- steps ----------

  datatype Event =
    | Append(frames: seq<Frame>, now: string)
    | Schedule
    | Retire
    | Stop
    | Begin(date: string)
    | WriteOk
    | WriteFails
    | CursorOk
    | CursorFails

  function Adopt(b: Buffer, c: Cursor): Buffer {
    b.(lastUuid := OrElse(c.lastUuid, b.lastUuid),
       lastSeq := if c.lastSeq.Some? then c.lastSeq.value else b.lastSeq,
       lastTimestamp := OrElse(c.lastTimestamp, b.lastTimestamp),
       flushedCount := c.flushedCount,
       retired := c.retired,
       startedAt := OrElse(c.startedAt, b.startedAt),
       schemaOnDisk := Some(c.schemaVersion))
  }

  /** Only the first use of the buffer reads the cursor. */
  function Load(b: Buffer, cursor: Option<Cursor>): Buffer {
    if b.loaded || cursor.None? then b.(loaded := true) else Adopt(b.(loaded := true), cursor.value)
  }

  predicate Accepts(f: Frame) {
    f.row.uuid.Some? && f.row.uuid.value != "" && f.unseen
  }

  function Accepted(frames: seq<Frame>): seq<Row>
    decreases |frames|
  {
    if frames == [] then [] else (if Accepts(frames[0]) then [frames[0].row] else []) + Accepted(frames[1..])
  }

  function Push(b: Buffer, row: Row): Buffer {
    b.(pending := b.pending + [row], lastUuid := row.uuid, lastSeq := b.lastSeq + 1,
       lastTimestamp := OrElse(row.timestamp, b.lastTimestamp))
  }

  function PushAll(b: Buffer, rows: seq<Row>): Buffer
    decreases |rows|
  {
    if rows == [] then b else PushAll(Push(b, rows[0]), rows[1..])
  }

  function Enqueue(b: Buffer): Buffer {
    b.(queue := b.queue + 1)
  }

  function AppendRows(threshold: nat, b: Buffer, cursor: Option<Cursor>, frames: seq<Frame>, now: string): Buffer {
    var l := Load(b, cursor);
    var n := PushAll(l.(startedAt := OrElse(l.startedAt, Some(now))), Accepted(frames));
    if |n.pending| >= threshold then Enqueue(n) else n
  }

  function CounterFor(b: Buffer, date: string): nat {
    if date in b.counters then b.counters[date] else 0
  }

  function Image(b: Buffer): Cursor {
    Cursor(if b.schemaOnDisk.Some? then b.schemaOnDisk.value else SCHEMA_VERSION, b.retired, b.flushedCount, b.lastUuid,
           if b.lastSeq > 0 then Some(b.lastSeq) else None, b.lastTimestamp, b.startedAt)
  }

  /** A queued flush starts: it takes all pending rows. */
  function BeginFlush(b: Buffer, date: string): Buffer {
    var n := b.(queue := if b.queue > 0 then b.queue - 1 else 0);
    if b.pending == [] then if b.retired then n.(flight := CursorOnly(Image(b))) else n
    else n.(pending := [], flight := Writing(b.pending, date, CounterFor(b, date)))
  }

  /** The file is in place; the cursor is composed at once, from what is accepted by now. */
  function Land(b: Buffer): Buffer
    requires b.flight.Writing?
  {
    var f := b.flight;
    var n := b.(counters := b.counters[f.date := f.counter + 1], flushedCount := b.flushedCount + |f.rows|,
                schemaOnDisk := Some(SCHEMA_VERSION));
    n.(flight := Renamed(f.rows, f.date, Image(n)))
  }

  /** A failed flush puts its rows back in front and forgets the counter of the day. */
  function GiveBack(b: Buffer, rows: seq<Row>, date: string): Buffer {
    b.(pending := rows + b.pending, counters := b.counters - {date}, flight := Idle)
  }

  predicate Enabled(s: System, ev: Event) {
    match ev
    case Append(frames, _) => !s.buf.stopped && frames != []
    case Schedule => !s.buf.stopped
    case Retire => !s.buf.stopped
    case Stop => !s.buf.stopped
    case Begin(_) => s.buf.flight.Idle? && s.buf.queue > 0
    case WriteOk => s.buf.flight.Writing?
    case WriteFails => s.buf.flight.Writing?
    case CursorOk => s.buf.flight.Renamed? || s.buf.flight.CursorOnly?
    case CursorFails => s.buf.flight.Renamed? || s.buf.flight.CursorOnly?
  }

  function Apply(s: System, ev: Event): System
    requires Enabled(s, ev)
  {
    var b, f := s.buf, s.buf.flight;
    match ev
    case Append(frames, now) =>
      s.(buf := AppendRows(s.threshold, b, s.disk.cursor, frames, now),
         past := s.past.(accepted := s.past.accepted + Accepted(frames)))
    case Schedule => s.(buf := Enqueue(b))
    case Retire => s.(buf := Enqueue(Load(b, s.disk.cursor).(retired := true)))
    case Stop => s.(buf := Enqueue(b).(stopped := true))
    case Begin(date) => s.(buf := BeginFlush(b, date))
    case WriteOk =>
      var name := Name(f.date, f.counter);
      s.(buf := Land(b), disk := s.disk.(files := s.disk.files[name := f.rows]),
         past := s.past.(log := s.past.log + [Landed(name, f.rows)]))
    case WriteFails =>
      s.(buf := GiveBack(b, f.rows, f.date), past := s.past.(log := s.past.log + [WriteFailed(f.date)]))
    case CursorOk =>
      s.(buf := b.(flight := Idle), disk := s.disk.(cursor := Some(f.image)),
         past := if f.Renamed? then s.past.(completed := s.past.completed + f.rows) else s.past)
    case CursorFails =>
      if f.Renamed? then
        s.(buf := GiveBack(b, f.rows, f.date), past := s.past.(log := s.past.log + [CursorFailed(f.date, f.rows)]))
      else s.(buf := b.(flight := Idle))
  }

  /** Events that cannot happen in a state are passed over, so every list of events is a run. */
  function Step(s: System, ev: Event): System {
    if Enabled(s, ev) then Apply(s, ev) else s
  }

  function Run(s: System, evs: seq<Event>): System
    decreases |evs|
  {
    if evs == [] then s else Run(Step(s, evs[0]), evs[1..])
  }

  // ---------- conservation ----------

  function Flying(f: Flight): seq<Row> {
    if f.Writing? || f.Renamed? then f.rows else []
  }

  /** Nothing accepted is lost, doubled or reordered in memory. */
  predicate Conserved(s: System) {
    s.past.accepted == s.past.completed + Flying(s.buf.flight) + s.buf.pending
  }

  lemma {:induction false} PushAllFields(b: Buffer, rows: seq<Row>)
    ensures var n := PushAll(b, rows);
            && n == b.(pending := b.pending + rows, lastUuid := n.lastUuid, lastSeq := b.lastSeq + |rows|,
              lastTimestamp := n.lastTimestamp)
            && n.lastUuid == if rows == [] then b.lastUuid else rows[|rows| - 1].uuid
    decreases |rows|
  {
    if rows == [] {
      assert b.pending + rows == b.pending;
    } else {
      PushAllFields(Push(b, rows[0]), rows[1..]);
      assert b.pending + [rows[0]] + rows[1..] == b.pending + rows;
    }
  }

  lemma AppendedFields(threshold: nat, b: Buffer, cursor: Option<Cursor>, frames: seq<Frame>, now: string)
    ensures var l, n, rows := Load(b, cursor), AppendRows(threshold, b, cursor, frames, now), Accepted(frames);
            && n.pending == b.pending + rows && n.lastSeq == l.lastSeq + |rows| && n.flushedCount == l.flushedCount &&
              n.retired == l.retired
            && n.loaded && n.counters == b.counters && n.flight == b.flight && n.startedAt.Some? &&
              n.stopped == b.stopped
            && n.lastUuid == if rows == [] then l.lastUuid else rows[|rows| - 1].uuid
  {
    var l := Load(b, cursor);
    PushAllFields(l.(startedAt := OrElse(l.startedAt, Some(now))), Accepted(frames));
  }

  lemma StepConserves(s: System, ev: Event)
    requires Conserved(s)
    ensures Conserved(Step(s, ev))
  {
    if Enabled(s, ev) {
      var p, f := s.past, s.buf.flight;
      match ev
      case Append(frames, now) =>
        AppendedFields(s.threshold, s.buf, s.disk.cursor, frames, now);
        assert p.completed + Flying(f) + s.buf.pending + Accepted(frames) ==
          p.completed + Flying(f) + (s.buf.pending + Accepted(frames));
      case Begin(date) =>
        assert p.completed + [] + s.buf.pending == p.completed + s.buf.pending + [];
      case CursorOk =>
        assert p.completed + Flying(f) + s.buf.pending == p.completed + Flying(f) + [] + s.buf.pending;
      case WriteFails => GivenBack(p.completed, Flying(f), s.buf.pending);
      case CursorFails => GivenBack(p.completed, Flying(f), s.buf.pending);
      case _ =>
    }
  }

  lemma GivenBack(done: seq<Row>, flying: seq<Row>, pending: seq<Row>)
    ensures done + flying + pending == done + [] + (flying + pending)
  {
  }

  lemma {:induction false} RunConserves(s: System, evs: seq<Event>)
    requires Conserved(s)
    ensures Conserved(Run(s, evs))
    decreases |evs|
  {
    if evs != [] {
      StepConserves(s, evs[0]);
      RunConserves(Step(s, evs[0]), evs[1..]);
    }
  }

  /** In every run, with appends at any await and any failures, the rows accepted are those of completed flushes, then
      those of the flush under way, then the pending ones, in the order of acceptance. */
  lemma Conservation(threshold: nat, disk: Disk, evs: seq<Event>)
    ensures Conserved(Run(Start(threshold, disk), evs))
  {
    RunConserves(Start(threshold, disk), evs);
  }

  // ---------- the imperative form ----------

  /** The buffer of a session with the files it writes; each method is the code between two awaits. */
  class SessionBuffer {
    const flushRows: nat
    var pending: seq<Row>
    var lastUuid: Option<string>
    var lastSeq: nat
    var lastTimestamp: Option<string>
    var flushedCount: nat
    var retired: bool
    var startedAt: Option<string>
    var schemaVersionOnDisk: Option<nat>
    var cursorLoaded: bool
    var counterByDate: map<string, nat>
    var queued: nat
    var flight: Flight
    var stopped: bool
    var disk: Disk
    ghost var past: History

    function Abs(): Buffer
      reads this
    {
      Buffer(pending, lastUuid, lastSeq, lastTimestamp, flushedCount, retired, startedAt, schemaVersionOnDisk,
        cursorLoaded,
             counterByDate, queued, flight, stopped)
    }

    ghost function Whole(): System
      reads this
    {
      System(flushRows, Abs(), disk, past)
    }

    constructor (flushRows: nat, disk: Disk)
      ensures Whole() == Start(flushRows, disk)
    {
      this.flushRows := flushRows;
      pending, lastUuid, lastSeq, lastTimestamp, flushedCount := [], None, 0, None, 0;
      retired, startedAt, schemaVersionOnDisk, cursorLoaded := false, None, None, false;
      counterByDate, queued, flight, stopped := map[], 0, Idle, false;
      this.disk := disk;
      past := History([], [], []);
    }

    method EnsureCursorLoaded()
      modifies this
      ensures Abs() == Load(old(Abs()), disk.cursor) && disk == old(disk) && past == old(past)
    {
      if cursorLoaded { return; }
      cursorLoaded := true;
      if disk.cursor.Some? { AdoptCursor(disk.cursor.value); }
    }

    method AdoptCursor(cursor: Cursor)
      modifies this
      ensures Abs() == Adopt(old(Abs()), cursor) && disk == old(disk) && past == old(past)
    {
      AdoptPosition(cursor);
      AdoptTimes(cursor);
      flushedCount := cursor.flushedCount;
      retired := cursor.retired;
      schemaVersionOnDisk := Some(cursor.schemaVersion);
    }

    method AdoptPosition(cursor: Cursor)
      modifies this`lastUuid, this`lastSeq
      ensures lastUuid == OrElse(cursor.lastUuid, old(lastUuid))
      ensures lastSeq == if cursor.lastSeq.Some? then cursor.lastSeq.value else old(lastSeq)
    {
      if cursor.lastUuid.Some? { lastUuid := cursor.lastUuid; }
      if cursor.lastSeq.Some? { lastSeq := cursor.lastSeq.value; }
    }

    method AdoptTimes(cursor: Cursor)
      modifies this`lastTimestamp, this`startedAt
      ensures lastTimestamp == OrElse(cursor.lastTimestamp, old(lastTimestamp)) &&
        startedAt == OrElse(cursor.startedAt, old(startedAt))
    {
      if cursor.lastTimestamp.Some? { lastTimestamp := cursor.lastTimestamp; }
      if cursor.startedAt.Some? { startedAt := cursor.startedAt; }
    }

    method ScheduleFlush()
      modifies this
      ensures Whole() == old(Whole()).(buf := Enqueue(old(Abs())))
    {
      queued := queued + 1;
    }

    method Append(frames: seq<Frame>, now: string)
      modifies this
      ensures Whole() == Step(old(Whole()), Event.Append(frames, now))
    {
      if stopped || frames == [] { return; }
      EnsureCursorLoaded();
      if startedAt.None? { startedAt := Some(now); }
      PushFrames(frames);
      past := past.(accepted := past.accepted + Accepted(frames));
      if |pending| >= flushRows { ScheduleFlush(); }
    }

    method PushFrames(frames: seq<Frame>)
      modifies this
      ensures Abs() == PushAll(old(Abs()), Accepted(frames)) && disk == old(disk) && past == old(past)
    {
      for k := 0 to |frames|
        invariant PushAll(Abs(), Accepted(frames[k..])) == PushAll(old(Abs()), Accepted(frames))
        invariant disk == old(disk) && past == old(past)
      {
        assert frames[k..][1..] == frames[k + 1..];
        var row := frames[k].row;
        if row.uuid.None? || row.uuid.value == "" || !frames[k].unseen {
          assert [] + Accepted(frames[k + 1..]) == Accepted(frames[k + 1..]);
          continue;
        }
        assert ([row] + Accepted(frames[k + 1..]))[1..] == Accepted(frames[k + 1..]);
        PushRow(row);
      }
      assert frames[|frames|..] == [];
    }

    method PushRow(row: Row)
      modifies this
      ensures Abs() == Push(old(Abs()), row) && disk == old(disk) && past == old(past)
    {
      pending := pending + [row];
      lastUuid := row.uuid;
      lastSeq := lastSeq + 1;
      if row.timestamp.Some? { lastTimestamp := row.timestamp; }
    }

    method RetireSession()
      modifies this
      ensures Whole() == Step(old(Whole()), Retire)
    {
      if stopped { return; }
      EnsureCursorLoaded();
      retired := true;
      ScheduleFlush();
    }

    /** `writeCursor` up to its await. */
    method ComposeCursor() returns (cursor: Cursor)
      ensures cursor == Image(Abs())
    {
      cursor := Cursor(if schemaVersionOnDisk.Some? then schemaVersionOnDisk.value else SCHEMA_VERSION,
                       retired, flushedCount, None, None, None, None);
      if lastUuid.Some? { cursor := cursor.(lastUuid := lastUuid); }
      if lastSeq > 0 { cursor := cursor.(lastSeq := Some(lastSeq)); }
      if lastTimestamp.Some? { cursor := cursor.(lastTimestamp := lastTimestamp); }
      if startedAt.Some? { cursor := cursor.(startedAt := startedAt); }
    }

    method RunFlush(date: string)
      requires Enabled(Whole(), Begin(date))
      modifies this
      ensures Whole() == Step(old(Whole()), Begin(date))
    {
      queued := queued - 1;
      if pending == [] && !retired { return; }
      if pending == [] && retired {
        var cursor := ComposeCursor();
        flight := CursorOnly(cursor);
        return;
      }
      var counter := if date in counterByDate then counterByDate[date] else 0;
      flight := Writing(pending, date, counter);
      pending := [];
    }

    method FileRenamed()
      requires Enabled(Whole(), WriteOk)
      modifies this
      ensures Whole() == Step(old(Whole()), WriteOk)
    {
      var name := Name(flight.date, flight.counter);
      disk := disk.(files := disk.files[name := flight.rows]);
      past := past.(log := past.log + [Landed(name, flight.rows)]);
      CountRows();
    }

    /** What `runFlush` does between the rename and the cursor. */
    method CountRows()
      requires flight.Writing?
      modifies this
      ensures Abs() == Land(old(Abs())) && disk == old(disk) && past == old(past)
    {
      var rows, date, counter := flight.rows, flight.date, flight.counter;
      counterByDate := counterByDate[date := counter + 1];
      flushedCount := flushedCount + |rows|;
      schemaVersionOnDisk := Some(SCHEMA_VERSION);
      var cursor := ComposeCursor();
      flight := Renamed(rows, date, cursor);
    }

    /** The `catch` of a flush. */
    method FlushFailed()
      requires flight.Writing? || flight.Renamed?
      modifies this
      ensures Whole() == Step(old(Whole()), if old(flight).Writing? then WriteFails else CursorFails)
    {
      past := past.(log := past.log +
        [if flight.Writing? then WriteFailed(flight.date) else CursorFailed(flight.date, flight.rows)]);
      pending := flight.rows + pending;
      counterByDate := counterByDate - {flight.date};
      flight := Idle;
    }

    method CursorWritten()
      requires Enabled(Whole(), CursorOk)
      modifies this
      ensures Whole() == Step(old(Whole()), CursorOk)
    {
      disk := disk.(cursor := Some(flight.image));
      if flight.Renamed? { past := past.(completed := past.completed + flight.rows); }
      flight := Idle;
    }
  }
}
