/** Recording is all or nothing, over every run of every number of interleaved exchanges. */
module RecorderTheorems {
  import opened Wrappers
  import opened Text
  import opened Recorder

  datatype World = World(exchanges: map<nat, State>, active: set<nat>, log: seq<Entry>)

  datatype Event = Begin(id: nat) | On(id: nat, act: Act)

  const EMPTY := World(map[], {}, [])

  function Step(w: World, ev: Event): World {
    match ev
    case Begin(id) => if id in w.exchanges then w
      else w.(exchanges := w.exchanges[id := NEW], active := w.active + {id})
    case On(id, act) =>
      if id !in w.exchanges then w
      else
        var out := Perform(id, w.exchanges[id], act);
        World(w.exchanges[id := out.st], if act.Finish? then w.active - {id} else w.active, w.log + out.entries)
  }

  function Run(w: World, evs: seq<Event>): World
    decreases |evs|
  {
    if evs == [] then w else Run(Step(w, evs[0]), evs[1..])
  }

  /** The log entries of one exchange. */
  function Own(log: seq<Entry>, id: nat): seq<Entry> {
    if log == [] then [] else (if log[0].id == id then [log[0]] else []) + Own(log[1..], id)
  }

  lemma {:induction false} OwnAppend(a: seq<Entry>, b: seq<Entry>, id: nat)
    ensures Own(a + b, id) == Own(a, id) + Own(b, id)
    decreases |a|
  {
    if a == [] {
      assert a + b == b && [] + Own(b, id) == Own(b, id);
    } else {
      assert (a + b)[1..] == a[1..] + b;
      OwnAppend(a[1..], b, id);
      Assoc(if a[0].id == id then [a[0]] else [], Own(a[1..], id), Own(b, id));
    }
  }

  lemma {:induction false} OwnUniform(log: seq<Entry>, id: nat, other: nat)
    requires forall k :: 0 <= k < |log| ==> log[k].id == other
    ensures Own(log, id) == if id == other then log else []
  {
    if log != [] {
      OwnUniform(log[1..], id, other);
      assert [log[0]] + log[1..] == log;
    }
  }

  /** How often the filter was asked. */
  function Questions(log: seq<Entry>): nat {
    if log == [] then 0 else (if log[0].Asked? then 1 else 0) + Questions(log[1..])
  }

  function Rows(log: seq<Entry>): seq<Entry> {
    if log == [] then [] else (if log[0].Asked? then [] else [log[0]]) + Rows(log[1..])
  }

  lemma {:induction false} RowsAppend(a: seq<Entry>, b: seq<Entry>)
    ensures Rows(a + b) == Rows(a) + Rows(b) && Questions(a + b) == Questions(a) + Questions(b)
    decreases |a|
  {
    if a == [] {
      assert a + b == b && [] + Rows(b) == Rows(b);
    } else {
      assert (a + b)[1..] == a[1..] + b;
      RowsAppend(a[1..], b);
      Assoc(if a[0].Asked? then [] else [a[0]], Rows(a[1..]), Rows(b));
    }
  }

  lemma {:induction false} RowsOnly(a: seq<Entry>)
    requires forall k :: 0 <= k < |a| ==> !a[k].Asked?
    ensures Rows(a) == a && Questions(a) == 0
  {
    if a != [] {
      RowsOnly(a[1..]);
      assert [a[0]] + a[1..] == a;
    }
  }

  /** The event rows that the stream so far amounts to. */
  function Streamed(id: nat, fed: string): seq<Entry> {
    StreamRows(id, Sse.Events(Sse.Cut(fed).blocks))
  }

  /** One exchange row, which counts the rows before it, among the stream rows. */
  ghost predicate Sealed(rows: seq<Entry>, streamed: seq<Entry>) {
    exists k :: SealedAt(rows, streamed, k)
  }

  predicate SealedAt(rows: seq<Entry>, streamed: seq<Entry>, k: int) {
    0 <= k < |rows| && rows[k].ExchangeRow? && rows[k].count == k && rows[..k] + rows[k + 1..] == streamed
  }

  /** What the log holds of an exchange, given its state. */
  ghost predicate Recorded(id: nat, st: State, own: seq<Entry>) {
    && st.buffer == Sse.Cut(st.fed).rest
    && match st.dropDecision
       case None => own == [] && !st.finished && st.streamEventCount == 0 && Streamed(id, st.fed) == []
       case Some(true) => Questions(own) == 1 && Rows(own) == []
       case Some(false) =>
         && Questions(own) <= 1
         && if st.finished then Sealed(Rows(own), Streamed(id, st.fed))
            else Rows(own) == Streamed(id, st.fed) && st.streamEventCount == |Rows(own)|
  }

  lemma StreamRowsAppend(id: nat, a: seq<Sse.Event>, b: seq<Sse.Event>)
    ensures StreamRows(id, a + b) == StreamRows(id, a) + StreamRows(id, b)
  {
  }

  /** Feeding one more chunk adds its events. */
  lemma StreamedGrows(id: nat, fed: string, chunk: string)
    ensures var more := Sse.Cut(Sse.Cut(fed).rest + chunk);
            Streamed(id, fed + chunk) == Streamed(id, fed) + StreamRows(id, Sse.Events(more.blocks)) &&
              Sse.Cut(fed + chunk).rest == more.rest
  {
    var more := Sse.Cut(Sse.Cut(fed).rest + chunk);
    Sse.CutAppend(fed, chunk);
    Sse.EventsAppend(Sse.Cut(fed).blocks, more.blocks);
    StreamRowsAppend(id, Sse.Events(Sse.Cut(fed).blocks), Sse.Events(more.blocks));
  }

  lemma SealedGrows(rows: seq<Entry>, streamed: seq<Entry>, more: seq<Entry>)
    requires Sealed(rows, streamed)
    ensures Sealed(rows + more, streamed + more)
  {
    var k :| SealedAt(rows, streamed, k);
    var all := rows + more;
    assert all[..k] == rows[..k] && all[k + 1..] == rows[k + 1..] + more;
    assert SealedAt(all, streamed + more, k);
  }

  lemma Seals(rows: seq<Entry>, last: Entry)
    requires last.ExchangeRow? && last.count == |rows|
    ensures Sealed(rows + [last], rows)
  {
    assert SealedAt(rows + [last], rows, |rows|);
  }

  lemma AskRecords(id: nat, st: State, verdict: Verdict)
    ensures var out := Ask(id, st, verdict);
            && Questions(out.entries) <= 1 && Rows(out.entries) == [] && out.st.dropDecision.Some?
            && (st.dropDecision.Some? ==> out == Outcome(st, []))
            && (st.dropDecision.None? && out.st.dropDecision.value ==> Questions(out.entries) == 1)
            && out.st == st.(dropDecision := out.st.dropDecision)
  {
    assert [Asked(id, st.requestBody)][1..] == [];
  }

  lemma ChunkRecorded(id: nat, st: State, own: seq<Entry>, chunk: string, verdict: Verdict)
    requires Recorded(id, st, own)
    ensures var out := ConsumeChunk(id, st, chunk, verdict); Recorded(id, out.st, own + out.entries)
  {
    var events := Sse.Events(Sse.Cut(st.buffer + chunk).blocks);
    StreamedGrows(id, st.fed, chunk);
    if events == [] {
      assert own + [] == own && Streamed(id, st.fed) + [] == Streamed(id, st.fed);
    } else if st.dropDecision.None? {
      FirstChunk(id, st, own, chunk, verdict, events);
    } else {
      if st.dropDecision.value { DroppedChunk(id, st, own, chunk, verdict, events); }
        else { KeptChunk(id, st, own, chunk, verdict, events); }
    }
  }

  lemma KeptGrows(id: nat, st: State, next: State, own: seq<Entry>, rows: seq<Entry>)
    requires Recorded(id, st, own) && st.dropDecision == Some(false)
    requires next == st.(buffer := Sse.Cut(next.fed).rest, fed := next.fed,
                         streamEventCount := st.streamEventCount + |rows|)
    requires Streamed(id, next.fed) == Streamed(id, st.fed) + rows && forall k :: 0 <= k < |rows| ==> !rows[k].Asked?
    ensures Recorded(id, next, own + rows)
  {
    RowsOnly(rows);
    RowsAppend(own, rows);
    if st.finished { SealedGrows(Rows(own), Streamed(id, st.fed), rows); }
  }

  /** The state after a chunk with events, but for the decision. */
  function Fed(st: State, chunk: string, events: seq<Sse.Event>): State {
    st.(buffer := Sse.Cut(st.buffer + chunk).rest, fed := st.fed + chunk,
        streamEventCount := st.streamEventCount + |events|)
  }

  lemma KeptChunk(id: nat, st: State, own: seq<Entry>, chunk: string, verdict: Verdict, events: seq<Sse.Event>)
    requires Recorded(id, st, own) && st.dropDecision == Some(false)
    requires events == Sse.Events(Sse.Cut(st.buffer + chunk).blocks) && events != []
    requires Streamed(id, st.fed + chunk) == Streamed(id, st.fed) + StreamRows(id, events)
    requires Sse.Cut(st.fed + chunk).rest == Sse.Cut(st.buffer + chunk).rest
    ensures var out := ConsumeChunk(id, st, chunk, verdict); Recorded(id, out.st, own + out.entries)
  {
    KeptOutcome(id, st, chunk, verdict, events);
    KeptGrows(id, st, Fed(st, chunk, events), own, StreamRows(id, events));
  }

  lemma KeptOutcome(id: nat, st: State, chunk: string, verdict: Verdict, events: seq<Sse.Event>)
    requires st.dropDecision == Some(false)
    requires events == Sse.Events(Sse.Cut(st.buffer + chunk).blocks) && events != []
    ensures ConsumeChunk(id, st, chunk, verdict) == Outcome(Fed(st, chunk, events), StreamRows(id, events))
    ensures |StreamRows(id, events)| == |events| && forall e :: e in StreamRows(id, events) ==> !e.Asked?
  {
    assert [] + StreamRows(id, events) == StreamRows(id, events);
  }

  lemma DroppedChunk(id: nat, st: State, own: seq<Entry>, chunk: string, verdict: Verdict, events: seq<Sse.Event>)
    requires Recorded(id, st, own) && st.dropDecision == Some(true)
    requires events == Sse.Events(Sse.Cut(st.buffer + chunk).blocks) && events != []
    requires Sse.Cut(st.fed + chunk).rest == Sse.Cut(st.buffer + chunk).rest
    ensures var out := ConsumeChunk(id, st, chunk, verdict); Recorded(id, out.st, own + out.entries)
  {
    assert own + [] == own;
  }

  lemma FirstChunk(id: nat, st: State, own: seq<Entry>, chunk: string, verdict: Verdict, events: seq<Sse.Event>)
    requires Recorded(id, st, own) && st.dropDecision.None? &&
      events == Sse.Events(Sse.Cut(st.buffer + chunk).blocks) && events != []
    requires Streamed(id, st.fed + chunk) == Streamed(id, st.fed) + StreamRows(id, events)
    requires Sse.Cut(st.fed + chunk).rest == Sse.Cut(st.buffer + chunk).rest
    ensures var out := ConsumeChunk(id, st, chunk, verdict); Recorded(id, out.st, own + out.entries)
  {
    var rows := StreamRows(id, events);
    var next := Fed(st, chunk, events);
    var asked := Ask(id, next, verdict);
    AskRecords(id, next, verdict);
    ChunkRows([], asked.entries, rows);
    assert [] + asked.entries == asked.entries && [] + (asked.entries + rows) == asked.entries + rows &&
      [] + rows == rows;
  }

  /** A possible question and then rows, after what was logged before. */
  lemma ChunkRows(own: seq<Entry>, asked: seq<Entry>, rows: seq<Entry>)
    requires Rows(asked) == [] && forall k :: 0 <= k < |rows| ==> !rows[k].Asked?
    ensures Rows(own + asked) == Rows(own) && Questions(own + asked) == Questions(own) + Questions(asked)
    ensures Rows(own + (asked + rows)) == Rows(own) + rows &&
      Questions(own + (asked + rows)) == Questions(own) + Questions(asked)
  {
    RowsAppend(own, asked);
    RowsOnly(rows);
    RowsAppend(own + asked, rows);
    Assoc(own, asked, rows);
    assert Rows(own) + [] == Rows(own);
  }

  lemma FinishRecorded(id: nat, st: State, own: seq<Entry>, verdict: Verdict)
    requires Recorded(id, st, own)
    ensures var out := FinishOnce(id, st, verdict); Recorded(id, out.st, own + out.entries) && out.st.finished
  {
    if st.finished {
      assert own + [] == own;
    } else {
      var next := st.(finished := true, reply := FinalizeReply(st));
      var asked := Ask(id, next, verdict);
      AskRecords(id, next, verdict);
      var s := asked.st;
      var last := ExchangeRow(id, s.requestBody, s.reply, s.streamEventCount, s.error);
      ChunkRows(own, asked.entries, [last]);
      if s.dropDecision == Some(false) { Seals(Rows(own), last); }
    }
  }

  lemma PerformRecorded(id: nat, st: State, own: seq<Entry>, act: Act)
    requires Recorded(id, st, own)
    ensures var out := Perform(id, st, act);
      Recorded(id, out.st, own + out.entries) && (out.st.finished <==> st.finished || act.Finish?)
  {
    if act.StreamChunk? {
      ChunkRecorded(id, st, own, act.chunk, act.verdict);
      ChunkLeavesOpen(id, st, act.chunk, act.verdict);
    } else if act.Finish? {
      FinishRecorded(id, st, own, act.verdict);
    } else {
      ActIsQuiet(id, st, act);
      QuietRecorded(id, st, Perform(id, st, act).st, own);
    }
  }

  lemma ChunkLeavesOpen(id: nat, st: State, chunk: string, verdict: Verdict)
    ensures ConsumeChunk(id, st, chunk, verdict).st.finished == st.finished
  {
  }

  lemma ActIsQuiet(id: nat, st: State, act: Act)
    requires !act.StreamChunk? && !act.Finish?
    ensures var out := Perform(id, st, act);
            && out.entries == []
            && out.st == st.(requestBody := out.st.requestBody, reply := out.st.reply, replyText := out.st.replyText,
              error := out.st.error)
  {
  }

  /** A step that touches neither stream nor decision. */
  lemma QuietRecorded(id: nat, st: State, next: State, own: seq<Entry>)
    requires Recorded(id, st, own)
    requires next.dropDecision == st.dropDecision && next.finished == st.finished &&
      next.streamEventCount == st.streamEventCount
    requires next.buffer == st.buffer && next.fed == st.fed
    ensures Recorded(id, next, own + [])
  {
    assert own + [] == own;
  }

  lemma PerformOwn(id: nat, st: State, act: Act)
    ensures forall k :: 0 <= k < |Perform(id, st, act).entries| ==> Perform(id, st, act).entries[k].id == id
  {
  }

  /** Every exchange is recorded, the active ones are those not finished, and the log knows no others. */
  ghost predicate Whole(w: World) {
    && (forall id: nat :: id in w.exchanges ==> Recorded(id, w.exchanges[id], Own(w.log, id)))
    && (forall id: nat :: id in w.active <==> id in w.exchanges && !w.exchanges[id].finished)
    && (forall id: nat :: id !in w.exchanges ==> Own(w.log, id) == [])
  }

  lemma StepWhole(w: World, ev: Event)
    requires Whole(w)
    ensures Whole(Step(w, ev))
  {
    if ev.On? && ev.id in w.exchanges {
      ActWhole(w, ev.id, ev.act);
    } else if ev.Begin? && ev.id !in w.exchanges {
      NothingFed(ev.id);
    }
  }

  lemma ActWhole(w: World, id: nat, act: Act)
    requires Whole(w) && id in w.exchanges
    ensures Whole(Step(w, On(id, act)))
  {
    var st, next := w.exchanges[id], Step(w, On(id, act));
    PerformRecorded(id, st, Own(w.log, id), act);
    OwnAfter(w.log, id, st, act);
    forall x: nat | x in next.exchanges ensures Recorded(x, next.exchanges[x], Own(next.log, x)) {
      if x != id { assert Recorded(x, w.exchanges[x], Own(w.log, x)); }
    }
  }

  lemma OwnAfter(log: seq<Entry>, id: nat, st: State, act: Act)
    ensures var next := log + Perform(id, st, act).entries;
            Own(next, id) == Own(log, id) + Perform(id, st, act).entries && forall x: nat :: x != id ==>
              Own(next, x) == Own(log, x)
  {
    var out := Perform(id, st, act);
    PerformOwn(id, st, act);
    forall x: nat ensures Own(log + out.entries, x) == if x == id then Own(log, id) + out.entries else Own(log, x) {
      OwnAppend(log, out.entries, x);
      OwnUniform(out.entries, x, id);
      assert Own(log, x) + [] == Own(log, x);
    }
  }

  lemma NothingFed(id: nat)
    ensures Recorded(id, NEW, [])
  {
  }

  lemma {:induction false} RunWhole(w: World, evs: seq<Event>)
    requires Whole(w)
    ensures Whole(Run(w, evs))
    decreases |evs|
  {
    if evs != [] {
      StepWhole(w, evs[0]);
      RunWhole(Step(w, evs[0]), evs[1..]);
    }
  }

  /** Over every run: the filter is asked at most once per exchange; a dropped exchange has no row of either kind; a
      kept one has the rows of all stream events received and, once finished, exactly one exchange row, whose count is
      the number of rows issued before it; the active exchanges are the unfinished ones. */
  lemma AllOrNothing(evs: seq<Event>, id: nat)
    ensures var w := Run(EMPTY, evs);
            && (id in w.active <==> id in w.exchanges && !w.exchanges[id].finished)
            && Questions(Own(w.log, id)) <= 1
            && (id in w.exchanges ==>
                  var st, rows := w.exchanges[id], Rows(Own(w.log, id));
                  && (st.finished ==> st.dropDecision.Some?)
                  && (st.dropDecision != Some(false) ==> rows == [])
                  && (st.dropDecision == Some(false) && !st.finished ==> rows == Streamed(id, st.fed))
                  && (st.dropDecision == Some(false) && st.finished ==> Sealed(rows, Streamed(id, st.fed))))
  {
    RunWhole(EMPTY, evs);
  }

  /** Once taken, the decision stands for the rest of the run. */
  lemma {:induction false} DecisionStands(w: World, evs: seq<Event>, id: nat)
    requires id in w.exchanges && w.exchanges[id].dropDecision.Some?
    ensures id in Run(w, evs).exchanges && Run(w, evs).exchanges[id].dropDecision == w.exchanges[id].dropDecision
    decreases |evs|
  {
    if evs != [] { DecisionStands(Step(w, evs[0]), evs[1..], id); }
  }

  // ---------- draining ----------

  function FinishAll(order: seq<nat>, verdict: Verdict): seq<Event> {
    if order == [] then [] else [On(order[0], Finish(verdict))] + FinishAll(order[1..], verdict)
  }

  /** Forcing every active exchange to finish leaves none, whatever the order. */
  lemma {:induction false} DrainEmpties(w: World, order: seq<nat>, verdict: Verdict)
    requires Whole(w) && forall id :: id in w.active ==> id in order
    ensures Run(w, FinishAll(order, verdict)).active == {}
    decreases |order|
  {
    if order != [] {
      var ev := On(order[0], Finish(verdict));
      assert ([ev] + FinishAll(order[1..], verdict))[1..] == FinishAll(order[1..], verdict);
      StepWhole(w, ev);
      assert order == [order[0]] + order[1..];
      DrainEmpties(Step(w, ev), order[1..], verdict);
    }
  }
}
