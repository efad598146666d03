/** The output forwarder of the test watchdog: two sinks that may refuse, one child to pause. */
module Forwarder {

  type Chunk = seq<int>

  datatype Sink = Mirror | Log

  /** What a sink was given: output of the child, or the watchdog's own notice. */
  datatype Item = Output(chunk: Chunk) | Notice

  /** What a sink was given, in order. */
  datatype Items = Nothing | Given(before: Items, item: Item)

  /** What can happen: the child writes and each sink takes the chunk or refuses more, a sink drains, the
      log fails. */
  datatype Event = Data(chunk: Chunk, mirrorTakes: bool, logTakes: bool) | Drain(sink: Sink) | LogError

  /** What happened, in order. */
  datatype Events = Start | Then(before: Events, event: Event)

  datatype State = State(
    paused: bool, blocked: set<Sink>, listening: set<Sink>, logWritable: bool,
    mirrored: Items, logged: Items)

  const START := State(false, {}, {}, true, Nothing, Nothing)

  // ---- The handlers as functions ---------------------------------------------------------------------------

  function Written(s: State, sink: Sink, item: Item): State {
    if sink.Mirror? then s.(mirrored := Given(s.mirrored, item)) else s.(logged := Given(s.logged, item))
  }

  function Sent(s: State, sink: Sink, chunk: Chunk, takes: bool): State {
    var t := Written(s, sink, Output(chunk));
    if takes || sink in s.blocked then t
    else t.(blocked := t.blocked + {sink}, listening := t.listening + {sink}, paused := true)
  }

  function Resumed(s: State): State { if s.blocked != {} then s else s.(paused := false) }

  function Next(s: State, e: Event): State {
    match e
    case Data(chunk, mirrorTakes, logTakes) =>
      var t := Sent(s, Mirror, chunk, mirrorTakes);
      if t.logWritable then Sent(t, Log, chunk, logTakes) else t
    case Drain(sink) =>
      if sink !in s.listening then s
      else Resumed(s.(blocked := s.blocked - {sink}, listening := s.listening - {sink}))
    case LogError =>
      Written(Resumed(s.(logWritable := false, blocked := s.blocked - {Log})), Mirror, Notice)
  }

  function Run(es: Events): State { if es.Start? then START else Next(Run(es.before), es.event) }

  // ---- The handlers as they are ----------------------------------------------------------------------------

  class Attempt {
    var paused: bool
    var blocked: set<Sink>
    var listening: set<Sink>
    var logWritable: bool
    var mirrored: Items
    var logged: Items

    function Now(): State
      reads this
    {
      State(paused, blocked, listening, logWritable, mirrored, logged)
    }

    constructor ()
      ensures Now() == START
    {
      paused, blocked, listening, logWritable, mirrored, logged := false, {}, {}, true, Nothing, Nothing;
    }

    method Put(sink: Sink, item: Item)
      modifies this
      ensures Now() == Written(old(Now()), sink, item)
    {
      if sink == Mirror {
        mirrored := Given(mirrored, item);
      } else {
        logged := Given(logged, item);
      }
    }

    method ResumeIfDrained()
      modifies this
      ensures Now() == Resumed(old(Now()))
    {
      if blocked == {} {
        paused := false;
      }
    }

    /** `sink.write` answers whether it takes more. */
    method WriteTo(sink: Sink, chunk: Chunk, takes: bool)
      modifies this
      ensures Now() == Sent(old(Now()), sink, chunk, takes)
    {
      Put(sink, Output(chunk));
      if takes || sink in blocked {
        return;
      }
      blocked := blocked + {sink};
      paused := true;
      listening := listening + {sink};
    }

    method OnDrain(sink: Sink)
      requires sink in listening
      modifies this
      ensures Now() == Next(old(Now()), Drain(sink))
    {
      listening := listening - {sink};
      blocked := blocked - {sink};
      ResumeIfDrained();
    }

    method OnLogError()
      modifies this
      ensures Now() == Next(old(Now()), LogError)
    {
      logWritable := false;
      blocked := blocked - {Log};
      ResumeIfDrained();
      Put(Mirror, Notice);
    }

    method Forward(chunk: Chunk, mirrorTakes: bool, logTakes: bool)
      modifies this
      ensures Now() == Next(old(Now()), Data(chunk, mirrorTakes, logTakes))
    {
      WriteTo(Mirror, chunk, mirrorTakes);
      if logWritable {
        WriteTo(Log, chunk, logTakes);
      }
    }
  }

  // ---- Every interleaving ----------------------------------------------------------------------------------

  datatype Chunks = NoChunk | Plus(before: Chunks, chunk: Chunk)

  /** The child's output among the items, in order. */
  function Outputs(items: Items): Chunks {
    if items.Nothing? then NoChunk
    else if items.item.Output? then Plus(Outputs(items.before), items.item.chunk) else Outputs(items.before)
  }

  predicate LogFailed(es: Events) { es.Then? && (es.event.LogError? || LogFailed(es.before)) }

  /** The chunks the child wrote, in order. */
  function ChunksOf(es: Events): Chunks {
    if es.Start? then NoChunk
    else if es.event.Data? then Plus(ChunksOf(es.before), es.event.chunk) else ChunksOf(es.before)
  }

  /** The chunks the child wrote before the log failed, in order. */
  function WrittenToLog(es: Events): Chunks {
    if es.Start? then NoChunk
    else if es.event.Data? && !LogFailed(es.before) then Plus(WrittenToLog(es.before), es.event.chunk)
    else WrittenToLog(es.before)
  }

  /** Paused exactly while blocked; a blocked sink, and no other that still matters, awaits its drain. */
  predicate Flow(s: State) {
    && (s.paused <==> s.blocked != {}) && s.blocked <= s.listening
    && (Mirror in s.listening ==> Mirror in s.blocked)
    && (Log in s.listening && s.logWritable ==> Log in s.blocked)
    && (!s.logWritable ==> Log !in s.blocked)
  }

  predicate Delivered(s: State, es: Events) {
    && (s.logWritable <==> !LogFailed(es))
    && Outputs(s.mirrored) == ChunksOf(es) && Outputs(s.logged) == WrittenToLog(es)
  }

  lemma FlowKeeps(s: State, e: Event)
    requires Flow(s)
    ensures Flow(Next(s, e))
  {
  }

  lemma DeliveryKeeps(s: State, es: Events, e: Event)
    requires Delivered(s, es)
    ensures Delivered(Next(s, e), Then(es, e))
  {
  }

  lemma {:induction false} RunKeeps(es: Events)
    ensures Flow(Run(es)) && Delivered(Run(es), es)
  {
    if es.Then? {
      RunKeeps(es.before);
      FlowKeeps(Run(es.before), es.event);
      DeliveryKeeps(Run(es.before), es.before, es.event);
    }
  }

  /** After any events the child is paused exactly while some sink is blocked, a blocked sink has its
      drain listener and is not a failed log, and each sink was given every chunk once and in order: the
      mirror all of them, the log those from before it failed. */
  lemma BackpressureIsExact(es: Events)
    ensures var s := Run(es);
            && (s.paused <==> s.blocked != {}) && s.blocked <= s.listening
            && (LogFailed(es) ==> Log !in s.blocked)
            && Outputs(s.mirrored) == ChunksOf(es) && Outputs(s.logged) == WrittenToLog(es)
  {
    RunKeeps(es);
  }

  lemma NoSink(sinks: set<Sink>)
    requires Mirror !in sinks && Log !in sinks
    ensures sinks == {}
  {
    if sinks != {} {
      var sink :| sink in sinks;
      match sink
      case Mirror =>
      case Log =>
    }
  }

  /** The child is never stuck: once every blocked sink has drained, or the log has failed instead, it runs. */
  lemma NeverStuck(es: Events, last: Event)
    requires last == Drain(Log) || last == LogError
    ensures !Run(Then(Then(es, Drain(Mirror)), last)).paused
  {
    var drained := Then(es, Drain(Mirror));
    RunKeeps(es);
    RunKeeps(drained);
    RunKeeps(Then(drained, last));
    NoSink(Run(Then(drained, last)).blocked);
  }
}
