/**
 The life of recorded exchanges, after src/recorder.js. The verdict of the drop filter comes with the step that would
 ask for it; rows are logged as they are issued to the sink.
 */
module Recorder {
  import opened Wrappers
  import opened Text
  import Sse

  datatype Reply = Reply(status: int, body: Option<string>)

  /** `fed` is the history of all stream chunks; the program does not keep it. */
  datatype State = State(
    requestBody: string, reply: Option<Reply>, replyText: string, streamEventCount: nat, error: Option<string>,
    finished: bool, dropDecision: Option<bool>, buffer: string, fed: string)

  const NEW := State("", None, "", 0, None, false, None, "", "")

  datatype Verdict = NoFilter | Drops | Keeps | Throws

  datatype Entry =
    | Asked(id: nat, body: string)
    | StreamRow(id: nat, event: Sse.Event)
    | ExchangeRow(id: nat, body: string, reply: Option<Reply>, count: nat, error: Option<string>)

  datatype Outcome = Outcome(st: State, entries: seq<Entry>)

  datatype Act =
    | RequestChunk(chunk: string)
    | ResponseStart(status: int)
    | ResponseChunk(chunk: string)
    | MarkStreaming
    | StreamChunk(chunk: string, verdict: Verdict)
    | SetError(message: string)
    | Finish(verdict: Verdict)

  function StreamRows(id: nat, events: seq<Sse.Event>): seq<Entry> {
    seq(|events|, k requires 0 <= k < |events| => StreamRow(id, events[k]))
  }

  /** The first question fixes the answer; a filter that fails keeps the exchange. */
  function Ask(id: nat, st: State, verdict: Verdict): Outcome {
    if st.dropDecision.Some? then Outcome(st, [])
    else if verdict.NoFilter? then Outcome(st.(dropDecision := Some(false)), [])
    else Outcome(st.(dropDecision := Some(verdict.Drops?)), [Asked(id, st.requestBody)])
  }

  function ConsumeChunk(id: nat, st: State, chunk: string, verdict: Verdict): Outcome {
    var pieces := Sse.Cut(st.buffer + chunk);
    var events := Sse.Events(pieces.blocks);
    var next := st.(buffer := pieces.rest, fed := st.fed + chunk);
    if events == [] then Outcome(next, []) else RecordEvents(id, next, events, verdict)
  }

  /** Events count even when they are dropped. */
  function RecordEvents(id: nat, st: State, events: seq<Sse.Event>, verdict: Verdict): Outcome {
    var asked := Ask(id, st.(streamEventCount := st.streamEventCount + |events|), verdict);
    if asked.st.dropDecision == Some(true) then asked else asked.(entries := asked.entries + StreamRows(id, events))
  }

  function FinalizeReply(st: State): Option<Reply> {
    if st.reply.Some? && st.reply.value.body.Some? then Some(st.reply.value.(body := Some(st.replyText))) else st.reply
  }

  function FinishOnce(id: nat, st: State, verdict: Verdict): Outcome {
    if st.finished then Outcome(st, [])
    else
      var asked := Ask(id, st.(finished := true, reply := FinalizeReply(st)), verdict);
      var s := asked.st;
      if s.dropDecision == Some(true) then asked
      else asked.(entries := asked.entries + [ExchangeRow(id, s.requestBody, s.reply, s.streamEventCount, s.error)])
  }

  function Perform(id: nat, st: State, act: Act): Outcome {
    match act
    case RequestChunk(chunk) => Outcome(st.(requestBody := st.requestBody + chunk), [])
    case ResponseStart(status) => Outcome(st.(reply := Some(Reply(status, Some(""))), replyText := ""), [])
    case ResponseChunk(chunk) =>
      if st.reply.None? || st.reply.value.body.None? then Outcome(st, [])
        else Outcome(st.(replyText := st.replyText + chunk), [])
    case MarkStreaming =>
      if st.reply.None? then Outcome(st, [])
        else Outcome(st.(reply := Some(st.reply.value.(body := None)), replyText := ""), [])
    case StreamChunk(chunk, verdict) => ConsumeChunk(id, st, chunk, verdict)
    case SetError(message) => Outcome(st.(error := Some(message)), [])
    case Finish(verdict) => FinishOnce(id, st, verdict)
  }

  // ---------- the imperative form ----------

  class Log {
    var entries: seq<Entry>

    constructor ()
      ensures entries == []
    {
      entries := [];
    }
  }

  class Recorder {
    const log: Log
    var active: set<Exchange>

    ghost predicate Valid()
      reads this, active
    {
      forall e :: e in active ==> e.recorder == this && !e.finished
    }

    constructor ()
      ensures active == {} && Valid() && fresh(log) && log.entries == []
    {
      log := new Log();
      active := {};
    }

    method StartExchange(id: nat) returns (e: Exchange)
      requires Valid()
      modifies this
      ensures Valid() && fresh(e) && fresh(e.sseParser) && active == old(active) + {e}
      ensures e.id == id && e.recorder == this && e.Abs() == NEW
    {
      e := new Exchange(this, id);
      active := active + {e};
    }

    /** What draining does after its timeout; `snapshot` lists the active exchanges. */
    method ForceFinish(snapshot: seq<Exchange>, verdict: Verdict)
      requires Valid() && active == set e | e in snapshot
      requires forall i, j :: 0 <= i < j < |snapshot| ==> snapshot[i] != snapshot[j]
      modifies this, log, active
      ensures Valid() && active == {} && forall e :: e in old(active) ==> e.finished
      ensures log.entries == old(log.entries) + FinishRows(snapshot, old(States(snapshot)), verdict)
    {
      FinishEach(snapshot, verdict);
    }

    /** The exchanges are finished one after another, each with its own rows. */
    method FinishEach(order: seq<Exchange>, verdict: Verdict)
      requires forall j :: 0 <= j < |order| ==> order[j].recorder == this
      requires forall i, j :: 0 <= i < j < |order| ==> order[i] != order[j]
      modifies this, log, set e | e in order
      ensures active == old(active) - (set e | e in order && !old(e.finished))
      ensures forall j :: 0 <= j < |order| ==> order[j].finished
      ensures log.entries == old(log.entries) + FinishRows(order, old(States(order)), verdict)
    {
      if order == [] { return; }
      ghost var was := States(order);
      order[0].Finish(verdict);
      assert States(order[1..]) == was[1..];
      Assoc(old(log.entries), Perform(order[0].id, was[0], Finish(verdict)).entries,
        FinishRows(order[1..], was[1..], verdict));
      FinishEach(order[1..], verdict);
    }
  }

  ghost function States(order: seq<Exchange>): (states: seq<State>)
    reads set e | e in order, set e | e in order :: e.sseParser
    ensures |states| == |order|
  {
    if order == [] then [] else [order[0].Abs()] + States(order[1..])
  }

  /** The entries of finishing some exchanges, one after another. */
  ghost function FinishRows(order: seq<Exchange>, states: seq<State>, verdict: Verdict): seq<Entry>
    requires |order| == |states|
  {
    if order == [] then []
    else Perform(order[0].id, states[0], Act.Finish(verdict)).entries + FinishRows(order[1..], states[1..], verdict)
  }

  class Exchange {
    const recorder: Recorder
    const id: nat
    const sseParser: Sse.SseParser
    var requestBody: string
    var reply: Option<Reply>
    var replyText: string
    var streamEventCount: nat
    var error: Option<string>
    var finished: bool
    var dropDecision: Option<bool>
    ghost var fed: string

    ghost function Abs(): State
      reads this, sseParser
    {
      State(requestBody, reply, replyText, streamEventCount, error, finished, dropDecision, sseParser.buffer, fed)
    }

    constructor (recorder: Recorder, id: nat)
      ensures this.recorder == recorder && this.id == id && Abs() == NEW && fresh(sseParser)
    {
      this.recorder, this.id := recorder, id;
      sseParser := new Sse.SseParser();
      requestBody, reply, replyText, streamEventCount, error := "", None, "", 0, None;
      finished, dropDecision, fed := false, None, "";
    }

    method AppendRequestChunk(chunk: string)
      modifies this
      ensures Abs() == Perform(id, old(Abs()), RequestChunk(chunk)).st
    {
      requestBody := requestBody + chunk;
    }

    method SetResponseStart(status: int)
      modifies this
      ensures Abs() == Perform(id, old(Abs()), ResponseStart(status)).st
    {
      reply, replyText := Some(Reply(status, Some(""))), "";
    }

    method AppendResponseChunk(chunk: string)
      modifies this
      ensures Abs() == Perform(id, old(Abs()), ResponseChunk(chunk)).st
    {
      if reply.None? || reply.value.body.None? { return; }
      replyText := replyText + chunk;
    }

    method MarkAsStreaming()
      modifies this
      ensures Abs() == Perform(id, old(Abs()), MarkStreaming).st
    {
      if reply.None? { return; }
      reply, replyText := Some(reply.value.(body := None)), "";
    }

    method ConsumeStreamChunk(chunk: string, verdict: Verdict)
      modifies this, sseParser, recorder.log
      ensures var out := Perform(id, old(Abs()), StreamChunk(chunk, verdict));
              Abs() == out.st && recorder.log.entries == old(recorder.log.entries) + out.entries
    {
      var events := sseParser.Feed(chunk);
      fed := fed + chunk;
      if events != [] { KeepEvents(events, verdict); }
    }

    method KeepEvents(events: seq<Sse.Event>, verdict: Verdict)
      modifies this`streamEventCount, this`dropDecision, recorder.log
      ensures var out := RecordEvents(id, old(Abs()), events, verdict);
              Abs() == out.st && recorder.log.entries == old(recorder.log.entries) + out.entries
    {
      streamEventCount := streamEventCount + |events|;
      var drop := ShouldDrop(verdict);
      if drop { return; }
      ghost var asked := recorder.log.entries;
      WriteEvents(events);
      Assoc(old(recorder.log.entries), asked[|old(recorder.log.entries)|..], StreamRows(id, events));
    }

    method WriteEvents(events: seq<Sse.Event>)
      modifies recorder.log
      ensures recorder.log.entries == old(recorder.log.entries) + StreamRows(id, events)
    {
      var log := recorder.log;
      for k := 0 to |events|
        invariant log.entries == old(log.entries) + StreamRows(id, events)[..k]
      {
        log.entries := log.entries + [StreamRow(id, events[k])];
      }
    }

    method SetErrorMessage(message: string)
      modifies this
      ensures Abs() == Perform(id, old(Abs()), SetError(message)).st
    {
      error := Some(message);
    }

    method Finish(verdict: Verdict)
      modifies this, recorder, recorder.log
      ensures var out := Perform(id, old(Abs()), Act.Finish(verdict));
              Abs() == out.st && recorder.log.entries == old(recorder.log.entries) + out.entries
      ensures recorder.active == if old(finished) then old(recorder.active) else old(recorder.active) - {this}
    {
      if finished { return; }
      finished := true;
      recorder.active := recorder.active - {this};
      if reply.Some? && reply.value.body.Some? { reply := Some(reply.value.(body := Some(replyText))); }
      var drop := ShouldDrop(verdict);
      if drop { return; }
      var log := recorder.log;
      log.entries := log.entries + [ExchangeRow(id, requestBody, reply, streamEventCount, error)];
    }

    method ShouldDrop(verdict: Verdict) returns (drop: bool)
      modifies this`dropDecision, recorder.log
      ensures var out := Ask(id, old(Abs()), verdict);
              Abs() == out.st && Some(drop) == dropDecision &&
                recorder.log.entries == old(recorder.log.entries) + out.entries
    {
      if dropDecision.Some? { return dropDecision.value; }
      if verdict.NoFilter? {
        dropDecision := Some(false);
        return false;
      }
      var log := recorder.log;
      log.entries := log.entries + [Asked(id, requestBody)];
      drop := verdict.Drops?;
      dropDecision := Some(drop);
    }
  }
}
