/** What the row of a finished exchange says, in terms of what happened to the exchange. */
module RecorderRows {
  import opened Wrappers
  import opened Text
  import opened Recorder
  import opened RecorderTheorems
  import Sse

  // ---------- what happened ----------

  /** All request chunks. */
  function RequestText(acts: seq<Act>): string {
    if acts == [] then ""
    else RequestText(acts[..|acts| - 1]) + if acts[|acts| - 1].RequestChunk? then acts[|acts| - 1].chunk else ""
  }

  function ResponseText(acts: seq<Act>): string {
    if acts == [] then ""
    else ResponseText(acts[..|acts| - 1]) + if acts[|acts| - 1].ResponseChunk? then acts[|acts| - 1].chunk else ""
  }

  function StreamText(acts: seq<Act>): string {
    if acts == [] then ""
    else StreamText(acts[..|acts| - 1]) + if acts[|acts| - 1].StreamChunk? then acts[|acts| - 1].chunk else ""
  }

  function LastError(acts: seq<Act>): Option<string> {
    if acts == [] then None
    else if acts[|acts| - 1].SetError? then Some(acts[|acts| - 1].message)
    else LastError(acts[..|acts| - 1])
  }

  /** What came since the response last started. */
  function SinceStart(acts: seq<Act>): seq<Act> {
    if acts == [] || acts[|acts| - 1].ResponseStart? then [] else SinceStart(acts[..|acts| - 1]) + [acts[|acts| - 1]]
  }

  function LastStatus(acts: seq<Act>): Option<int> {
    if acts == [] then None
    else if acts[|acts| - 1].ResponseStart? then Some(acts[|acts| - 1].status)
    else LastStatus(acts[..|acts| - 1])
  }

  predicate Streaming(acts: seq<Act>) {
    exists k :: 0 <= k < |acts| && acts[k].MarkStreaming?
  }

  /** The response: none before it starts; its chunks since it last started, or no body once it streams. */
  function Response(acts: seq<Act>): Option<Reply> {
    if LastStatus(acts).None? then None
    else
      var since := SinceStart(acts);
      Some(Reply(LastStatus(acts).value, if Streaming(since) then None else Some(ResponseText(since))))
  }

  function EventCount(acts: seq<Act>): nat {
    |Sse.Events(Sse.Cut(StreamText(acts)).blocks)|
  }

  // ---------- the state they lead to ----------

  /** The state of an exchange after these acts. */
  function After(id: nat, acts: seq<Act>): State {
    if acts == [] then NEW else Perform(id, After(id, acts[..|acts| - 1]), acts[|acts| - 1]).st
  }

  predicate Unfinished(acts: seq<Act>) {
    forall k :: 0 <= k < |acts| ==> !acts[k].Finish?
  }

  /** The state says what happened. */
  predicate Tells(st: State, acts: seq<Act>) {
    && st.requestBody == RequestText(acts) && st.error == LastError(acts) && !st.finished
    && FinalizeReply(st) == Response(acts)
    && (st.reply.Some? && st.reply.value.body.None? <==> Response(acts).Some? && Response(acts).value.body.None?)
    && (st.reply.None? <==> Response(acts).None?)
    && st.fed == StreamText(acts) && st.buffer == Sse.Cut(st.fed).rest && st.streamEventCount == EventCount(acts)
  }

  lemma StreamingSnoc(acts: seq<Act>, act: Act)
    ensures Streaming(acts + [act]) <==> Streaming(acts) || act.MarkStreaming?
  {
    var all := acts + [act];
    assert all[|acts|] == act;
    if k :| 0 <= k < |acts| && acts[k].MarkStreaming? { assert all[k].MarkStreaming?; }
  }

  lemma ResponseSnoc(acts: seq<Act>, act: Act)
    ensures var before := Response(acts);
            Response(acts + [act]) ==
            match act
            case ResponseStart(status) => Some(Reply(status, Some("")))
            case ResponseChunk(chunk) =>
              if before.None? || before.value.body.None? then before
              else Some(before.value.(body := Some(before.value.body.value + chunk)))
            case MarkStreaming => if before.None? then None else Some(before.value.(body := None))
            case _ => before
  {
    var since := SinceStart(acts);
    assert (acts + [act])[..|acts|] == acts && (since + [act])[..|since|] == since;
    StreamingSnoc(since, act);
    assert ResponseText(since) + "" == ResponseText(since);
  }

  lemma ReplyAfter(id: nat, st: State, acts: seq<Act>, act: Act)
    requires Tells(st, acts) && !act.StreamChunk? && !act.Finish?
    ensures Tells(Perform(id, st, act).st, acts + [act])
  {
    ResponseSnoc(acts, act);
    TextSnoc(acts, act);
  }

  lemma TextSnoc(acts: seq<Act>, act: Act)
    ensures RequestText(acts + [act]) == RequestText(acts) + if act.RequestChunk? then act.chunk else ""
    ensures StreamText(acts + [act]) == StreamText(acts) + if act.StreamChunk? then act.chunk else ""
    ensures LastError(acts + [act]) == if act.SetError? then Some(act.message) else LastError(acts)
    ensures !act.RequestChunk? ==> RequestText(acts + [act]) == RequestText(acts)
    ensures !act.StreamChunk? ==> StreamText(acts + [act]) == StreamText(acts)
  {
    assert (acts + [act])[..|acts|] == acts;
    assert RequestText(acts) + "" == RequestText(acts) && StreamText(acts) + "" == StreamText(acts);
  }

  /** What a checkpoint logs before its rows: a question, the first time there is a filter to ask. */
  function Question(id: nat, st: State, body: string, verdict: Verdict): seq<Entry> {
    if st.dropDecision.None? && !verdict.NoFilter? then [Asked(id, body)] else []
  }

  /** Whether it drops: as decided before, else as the filter says; no filter and a failing one keep. */
  predicate Dropped(st: State, verdict: Verdict) {
    if st.dropDecision.Some? then st.dropDecision.value else verdict.Drops?
  }

  /** The events of a chunk, recorded: behind a question, unless dropped. */
  lemma EventsLog(id: nat, st: State, events: seq<Sse.Event>, verdict: Verdict)
    ensures var out := RecordEvents(id, st, events, verdict);
            && out.entries ==
               Question(id, st, st.requestBody, verdict) + (if Dropped(st, verdict) then [] else StreamRows(id, events))
            && out.st == st.(streamEventCount := st.streamEventCount + |events|,
                             dropDecision := Some(Dropped(st, verdict)))
  {
    var asked := Question(id, st, st.requestBody, verdict);
    assert asked + [] == asked;
  }

  lemma ChunkAfter(id: nat, st: State, acts: seq<Act>, act: Act)
    requires Tells(st, acts) && act.StreamChunk?
    ensures Tells(Perform(id, st, act).st, acts + [act])
  {
    ResponseSnoc(acts, act);
    TextSnoc(acts, act);
    StreamedGrows(id, st.fed, act.chunk);
    ChunkState(id, st, act.chunk, act.verdict);
  }

  lemma ChunkState(id: nat, st: State, chunk: string, verdict: Verdict)
    ensures var pieces := Sse.Cut(st.buffer + chunk);
            var next := ConsumeChunk(id, st, chunk, verdict).st;
            next == st.(buffer := pieces.rest, fed := st.fed + chunk, dropDecision := next.dropDecision,
                        streamEventCount := st.streamEventCount + |Sse.Events(pieces.blocks)|)
  {
    var pieces := Sse.Cut(st.buffer + chunk);
    EventsLog(id, st.(buffer := pieces.rest, fed := st.fed + chunk), Sse.Events(pieces.blocks), verdict);
  }

  lemma {:induction false} StateTells(id: nat, acts: seq<Act>)
    requires Unfinished(acts)
    ensures Tells(After(id, acts), acts)
    decreases |acts|
  {
    if acts != [] {
      var front, act := acts[..|acts| - 1], acts[|acts| - 1];
      assert acts == front + [act];
      StateTells(id, front);
      if act.StreamChunk? { ChunkAfter(id, After(id, front), front, act); }
        else { ReplyAfter(id, After(id, front), front, act); }
    }
  }

  // ---------- in a run ----------

  /** What happened to an exchange in a run; None when it never began. */
  function ActsOf(evs: seq<Event>, id: nat): Option<seq<Act>> {
    if evs == [] then None
    else
      var before, ev := ActsOf(evs[..|evs| - 1], id), evs[|evs| - 1];
      if ev == Begin(id) && before.None? then Some([])
      else if ev.On? && ev.id == id && before.Some? then Some(before.value + [ev.act])
      else before
  }

  lemma {:induction false} RunSnoc(w: World, evs: seq<Event>, ev: Event)
    ensures Run(w, evs + [ev]) == Step(Run(w, evs), ev)
    decreases |evs|
  {
    if evs == [] {
      assert evs + [ev] == [ev] && [ev][1..] == [];
    } else {
      assert (evs + [ev])[1..] == evs[1..] + [ev];
      RunSnoc(Step(w, evs[0]), evs[1..], ev);
    }
  }

  /** Exchanges do not touch each other: the state of one is that of its own acts. */
  lemma {:induction false} OwnState(evs: seq<Event>, id: nat)
    ensures var w := Run(EMPTY, evs);
            var acts := ActsOf(evs, id);
            (id in w.exchanges <==> acts.Some?) && (acts.Some? ==> w.exchanges[id] == After(id, acts.value))
    decreases |evs|
  {
    if evs != [] {
      var front, ev := evs[..|evs| - 1], evs[|evs| - 1];
      assert evs == front + [ev];
      OwnState(front, id);
      RunSnoc(EMPTY, front, ev);
      if ev.On? && ev.id == id && ActsOf(front, id).Some? {
        var acts := ActsOf(front, id).value;
        assert (acts + [ev.act])[..|acts|] == acts;
      }
    }
  }

  lemma FinishLogs(id: nat, st: State, acts: seq<Act>, verdict: Verdict)
    requires Tells(st, acts)
    ensures var row := ExchangeRow(id, RequestText(acts), Response(acts), EventCount(acts), LastError(acts));
            Perform(id, st, Finish(verdict)).entries ==
            Question(id, st, RequestText(acts), verdict) + if Dropped(st, verdict) then [] else [row]
    ensures Perform(id, st, Finish(verdict)).st.dropDecision == Some(Dropped(st, verdict))
  {
    var asked := Question(id, st, RequestText(acts), verdict);
    assert asked + [] == asked;
  }

  lemma ChunkEntries(id: nat, st: State, chunk: string, verdict: Verdict)
    ensures var events, out := Sse.Events(Sse.Cut(st.buffer + chunk).blocks), ConsumeChunk(id, st, chunk, verdict);
            && out.entries ==
               (if events == [] then []
                else Question(id, st, st.requestBody, verdict) + if Dropped(st, verdict) then []
                  else StreamRows(id, events))
            && out.st.dropDecision == if events == [] then st.dropDecision else Some(Dropped(st, verdict))
  {
    var pieces := Sse.Cut(st.buffer + chunk);
    var next := st.(buffer := pieces.rest, fed := st.fed + chunk);
    EventsLog(id, next, Sse.Events(pieces.blocks), verdict);
    assert Question(id, next, next.requestBody, verdict) == Question(id, st, st.requestBody, verdict);
  }

  lemma ChunkLogs(id: nat, st: State, acts: seq<Act>, chunk: string, verdict: Verdict)
    requires Tells(st, acts)
    ensures var events, out := Sse.Events(Sse.Cut(st.buffer + chunk).blocks),
      Perform(id, st, StreamChunk(chunk, verdict));
            && out.entries ==
               (if events == [] then []
                else Question(id, st, RequestText(acts), verdict)
                     + if Dropped(st, verdict) then [] else StreamRows(id, events))
            && out.st.dropDecision == if events == [] then st.dropDecision else Some(Dropped(st, verdict))
  {
    ChunkEntries(id, st, chunk, verdict);
  }

  lemma OwnTells(evs: seq<Event>, id: nat)
    requires ActsOf(evs, id).Some? && Unfinished(ActsOf(evs, id).value)
    ensures id in Run(EMPTY, evs).exchanges && Tells(Run(EMPTY, evs).exchanges[id], ActsOf(evs, id).value)
  {
    OwnState(evs, id);
    StateTells(id, ActsOf(evs, id).value);
  }

  /** Whatever else goes on, finishing an exchange logs its row, unless it is dropped: the whole request, the response
      since it last started, the number of stream events and the last error. */
  lemma FinishedRow(evs: seq<Event>, id: nat, verdict: Verdict)
    requires ActsOf(evs, id).Some? && Unfinished(ActsOf(evs, id).value)
    ensures var w, acts := Run(EMPTY, evs), ActsOf(evs, id).value;
            && id in w.exchanges
            && var st := w.exchanges[id];
               var row := ExchangeRow(id, RequestText(acts), Response(acts), EventCount(acts), LastError(acts));
               var next := Step(w, On(id, Finish(verdict)));
               && next.log ==
                  w.log + (Question(id, st, RequestText(acts), verdict) + if Dropped(st, verdict) then [] else [row])
               && next.exchanges[id].dropDecision == Some(Dropped(st, verdict))
  {
    OwnTells(evs, id);
    var w, acts := Run(EMPTY, evs), ActsOf(evs, id).value;
    FinishLogs(id, w.exchanges[id], acts, verdict);
    ActLogged(w, id, Finish(verdict));
  }

  /** A chunk of a stream logs the events that it completes, unless the exchange is dropped; the filter sees the whole
      request. */
  lemma StreamedRows(evs: seq<Event>, id: nat, chunk: string, verdict: Verdict)
    requires ActsOf(evs, id).Some? && Unfinished(ActsOf(evs, id).value)
    ensures var w, acts := Run(EMPTY, evs), ActsOf(evs, id).value;
            && id in w.exchanges
            && var st := w.exchanges[id];
               var events := Sse.Events(Sse.Cut(Sse.Cut(StreamText(acts)).rest + chunk).blocks);
               var next := Step(w, On(id, StreamChunk(chunk, verdict)));
               && next.log == w.log + (if events == [] then []
                                       else Question(id, st, RequestText(acts), verdict)
                                            + if Dropped(st, verdict) then [] else StreamRows(id, events))
               && next.exchanges[id].dropDecision ==
                  if events == [] then st.dropDecision else Some(Dropped(st, verdict))
  {
    OwnTells(evs, id);
    var w, acts := Run(EMPTY, evs), ActsOf(evs, id).value;
    ChunkLogs(id, w.exchanges[id], acts, chunk, verdict);
    ActLogged(w, id, StreamChunk(chunk, verdict));
  }

  lemma ActLogged(w: World, id: nat, act: Act)
    requires id in w.exchanges
    ensures var out, next := Perform(id, w.exchanges[id], act), Step(w, On(id, act));
            next.log == w.log + out.entries && id in next.exchanges && next.exchanges[id] == out.st
  {
  }
}
