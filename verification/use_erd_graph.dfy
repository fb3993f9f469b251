/**
 * The client's ERD hook (`useErdGraph.ts`): `load`, and `sync`, which posts
 * a sync request and reads the server-sent events of the answer. The body
 * arrives in chunks; the text is cut at blank lines (`\n\n`), the unfinished
 * tail waits in a buffer for the next chunk, and each finished segment that
 * carries `data:` is parsed as a progress event.
 */
module ErdGraphSync {
  import opened Wrappers
  import opened Text
  import opened Schema

  /** The separator between two server-sent events. */
  const SEP := "\n\n"

  // ------------------------------------------------------------ framing

  /** The text of the chunks received, in order. */
  function Received(chunks: seq<string>): string {
    if |chunks| == 0 then "" else Received(chunks[..|chunks| - 1]) + chunks[|chunks| - 1]
  }

  /** The segments handed on so far, and the buffer still waiting for its separator. */
  datatype Frames = Frames(segments: seq<string>, buf: string)

  /**
   * The framing after each chunk: the chunk is appended to the buffer, the
   * buffer is split at every separator, the last part becomes the buffer and
   * the others are handed on.
   */
  function Framed(chunks: seq<string>): Frames {
    if |chunks| == 0 then Frames([], "")
    else
      var before := Framed(chunks[..|chunks| - 1]);
      var parts := SplitOn(before.buf + chunks[|chunks| - 1], SEP);
      Frames(before.segments + parts[..|parts| - 1], parts[|parts| - 1])
  }

  /**
   * Nothing is lost or reordered: the segments handed on, each with its
   * separator, followed by the buffer, are exactly the text received.
   */
  lemma {:induction false} FramedRoundTrip(chunks: seq<string>)
    ensures Terminated(Framed(chunks).segments, SEP) + Framed(chunks).buf == Received(chunks)
  {
    if |chunks| > 0 {
      var init := chunks[..|chunks| - 1];
      var before := Framed(init);
      var text := before.buf + chunks[|chunks| - 1];
      var parts := SplitOn(text, SEP);
      var ready, rest := parts[..|parts| - 1], parts[|parts| - 1];
      assert Framed(chunks) == Frames(before.segments + ready, rest);
      assert Terminated(ready, SEP) + rest == text by {
        SplitOnJoin(text, SEP);
      }
      FramedRoundTrip(init);
      RoundTripStep(before.segments, before.buf, chunks[|chunks| - 1], ready, rest);
    }
  }

  lemma {:induction false} RoundTripStep(segments: seq<string>, buf: string, chunk: string, ready: seq<string>, rest: string)
    requires Terminated(ready, SEP) + rest == buf + chunk
    ensures Terminated(segments + ready, SEP) + rest == Terminated(segments, SEP) + buf + chunk
  {
    TerminatedAppend(segments, ready, SEP);
    calc {
      Terminated(segments + ready, SEP) + rest;
      Terminated(segments, SEP) + Terminated(ready, SEP) + rest;
      Terminated(segments, SEP) + (Terminated(ready, SEP) + rest);
    }
  }

  /** The framing after one more chunk, in the terms of the read loop. */
  lemma {:induction false} FramedStep(chunks: seq<string>, k: nat)
    requires k < |chunks|
    ensures var before := Framed(chunks[..k]);
      var parts := SplitOn(before.buf + chunks[k], SEP);
      Framed(chunks[..k + 1]) == Frames(before.segments + parts[..|parts| - 1], parts[|parts| - 1])
  {
    assert chunks[..k + 1][..k] == chunks[..k];
  }

  /**
   * One turn of the read loop's framing: the chunk is appended to `buf`, the
   * buffer is split at every separator and the last part is kept.
   */
  method NextFrames(chunks: seq<string>, k: nat, ghost segments: seq<string>, buf: string)
    returns (ready: seq<string>, rest: string)
    requires k < |chunks| && Framed(chunks[..k]) == Frames(segments, buf)
    ensures Framed(chunks[..k + 1]) == Frames(segments + ready, rest)
  {
    var parts := SplitOn(buf + chunks[k], SEP);
    ready, rest := parts[..|parts| - 1], parts[|parts| - 1];
    FramedStep(chunks, k);
  }

  /** The buffer never holds a separator: whatever it keeps is waiting for one. */
  lemma {:induction false} FramedBufOpen(chunks: seq<string>)
    ensures Find(Framed(chunks).buf, SEP) < 0
  {
    if |chunks| > 0 {
      SplitOnLast(Framed(chunks[..|chunks| - 1]).buf + chunks[|chunks| - 1], SEP);
    }
  }

  /** Later chunks only add segments after the ones already handed on. */
  lemma {:induction false} FramedPrefix(chunks: seq<string>, k: nat)
    requires k <= |chunks|
    ensures Framed(chunks[..k]).segments <= Framed(chunks).segments
    decreases |chunks|
  {
    if k < |chunks| {
      var init := chunks[..|chunks| - 1];
      assert chunks[..k] == init[..k];
      FramedPrefix(init, k);
    } else {
      assert chunks[..k] == chunks;
    }
  }

  // ------------------------------------------------------------ events

  datatype Step = Connect | Extract | Infer | Save | Done | Error

  /** A `SyncProgress` event. */
  datatype SyncEvent = SyncEvent(step: Step, message: string, progress: int, graph: Option<ErdGraph>)

  /** The text handed to `JSON.parse` for a segment: the trimmed segment must start with `data:`. */
  function Payload(segment: string): (r: Option<string>)
    ensures r.Some? <==> StartsWith(Trim(segment), "data:")
  {
    var line := Trim(segment);
    if StartsWith(line, "data:") then Some(Trim(line[5..])) else None
  }

  /** The event a segment yields; `parse` stands for `JSON.parse`, `None` when it throws. */
  function SegmentEvent(segment: string, parse: string -> Option<SyncEvent>): (r: Option<SyncEvent>)
    ensures Payload(segment).None? ==> r.None?
    ensures Payload(segment).Some? ==> r == parse(Payload(segment).value)
  {
    match Payload(segment)
    case None => None
    case Some(p) => parse(p)
  }

  function OptionSeq(e: Option<SyncEvent>): seq<SyncEvent> {
    if e.Some? then [e.value] else []
  }

  /** `SegmentEvent` for a fixed parser, as a function value. */
  function EventOf(parse: string -> Option<SyncEvent>): string -> Option<SyncEvent> {
    segment => SegmentEvent(segment, parse)
  }

  /** The events of a run of segments, in order; segments without an event are skipped. */
  function Events(segments: seq<string>, eventOf: string -> Option<SyncEvent>): seq<SyncEvent> {
    if |segments| == 0 then []
    else Events(segments[..|segments| - 1], eventOf) + OptionSeq(eventOf(segments[|segments| - 1]))
  }

  lemma {:induction false} EventsAppend(a: seq<string>, b: seq<string>, eventOf: string -> Option<SyncEvent>)
    ensures Events(a + b, eventOf) == Events(a, eventOf) + Events(b, eventOf)
    decreases |b|
  {
    if |b| == 0 {
      assert a + b == a;
    } else {
      assert (a + b)[..|a + b| - 1] == a + b[..|b| - 1];
      EventsAppend(a, b[..|b| - 1], eventOf);
    }
  }

  /** Every event of the stream, as if it were read to its end. */
  function StreamEvents(chunks: seq<string>, parse: string -> Option<SyncEvent>): seq<SyncEvent> {
    Events(Framed(chunks).segments, EventOf(parse))
  }

  /** A `done` event that carries a graph. */
  predicate IsResult(e: SyncEvent) {
    e.step == Done && e.graph.Some?
  }

  /** The graph of the last `done` event that carries one. */
  function LastGraph(events: seq<SyncEvent>): Option<ErdGraph> {
    if |events| == 0 then None
    else
      var last := events[|events| - 1];
      if IsResult(last) then last.graph else LastGraph(events[..|events| - 1])
  }

  /** `LastGraph` is the graph of the last result event, and there is none exactly when no event is a result. */
  lemma {:induction false} LastGraphSpec(events: seq<SyncEvent>)
    ensures LastGraph(events).None? <==> forall i :: 0 <= i < |events| ==> !IsResult(events[i])
    ensures LastGraph(events).Some? ==>
      exists i :: 0 <= i < |events| && IsResult(events[i]) && events[i].graph == LastGraph(events) && forall j :: i < j < |events| ==> !IsResult(events[j])
  {
    if |events| > 0 {
      var init := events[..|events| - 1];
      LastGraphSpec(init);
      if !IsResult(events[|events| - 1]) && LastGraph(init).Some? {
        var i :| 0 <= i < |init| && IsResult(init[i]) && init[i].graph == LastGraph(init)
          && forall j :: i < j < |init| ==> !IsResult(init[j]);
        assert events[i] == init[i];
      }
    }
  }

  lemma {:induction false} LastGraphAppend(a: seq<SyncEvent>, b: seq<SyncEvent>)
    ensures LastGraph(a + b) == if LastGraph(b).Some? then LastGraph(b) else LastGraph(a)
    decreases |b|
  {
    if |b| == 0 {
      assert a + b == a;
    } else {
      assert (a + b)[..|a + b| - 1] == a + b[..|b| - 1];
      LastGraphAppend(a, b[..|b| - 1]);
    }
  }

  /** The graph after a run of events: the last result graph, or `g` when there is none. */
  function Latest(g: Option<ErdGraph>, events: seq<SyncEvent>): Option<ErdGraph> {
    if LastGraph(events).Some? then LastGraph(events) else g
  }

  /** Handling two runs of events one after the other is handling them together. */
  lemma {:induction false} LatestAppend(g: Option<ErdGraph>, a: seq<SyncEvent>, b: seq<SyncEvent>)
    ensures Latest(g, a + b) == Latest(Latest(g, a), b)
  {
    LastGraphAppend(a, b);
  }

  /** The index of the first `error` event. */
  function FirstError(events: seq<SyncEvent>): (r: Option<nat>)
    ensures r.Some? ==> r.value < |events|
  {
    if |events| == 0 then None
    else
      var e := FirstError(events[..|events| - 1]);
      if e.Some? then e
      else if events[|events| - 1].step == Error then Some(|events| - 1)
      else None
  }

  /** `FirstError` finds an `error` event with none before it, and finds none exactly when there is none. */
  lemma {:induction false} FirstErrorSpec(events: seq<SyncEvent>)
    ensures FirstError(events).None? <==> forall i :: 0 <= i < |events| ==> events[i].step != Error
    ensures FirstError(events).Some? ==> FirstError(events).value < |events|
    ensures FirstError(events).Some? ==> events[FirstError(events).value].step == Error
    ensures FirstError(events).Some? ==> forall j :: 0 <= j < FirstError(events).value ==> events[j].step != Error
  {
    if |events| > 0 {
      var init := events[..|events| - 1];
      FirstErrorSpec(init);
      assert forall i :: 0 <= i < |init| ==> events[i] == init[i];
    }
  }

  lemma {:induction false} EventStep(seen: seq<SyncEvent>, e: SyncEvent)
    ensures LastGraph(seen + [e]) == if IsResult(e) then e.graph else LastGraph(seen)
    ensures FirstError(seen).None? ==> FirstError(seen + [e]) == if e.step == Error then Some(|seen|) else None
  {
    assert (seen + [e])[..|seen|] == seen;
  }

  /** More events after the first error do not move it. */
  lemma {:induction false} FirstErrorPrefix(a: seq<SyncEvent>, b: seq<SyncEvent>)
    requires FirstError(a).Some?
    ensures FirstError(a + b) == FirstError(a)
  {
    FirstErrorSpec(a);
    FirstErrorSpec(a + b);
    assert forall j :: 0 <= j < |a| ==> (a + b)[j] == a[j];
  }

  // ------------------------------------------------------------ handling events

  /**
   * What the handling of events has done so far: the events handed to
   * `onProgress`, the hook's graph and error, the graph `sync` will return,
   * and whether an `error` event has ended the stream.
   */
  datatype Handled = Handled(
    delivered: seq<SyncEvent>,
    graph: Option<ErdGraph>,
    error: Option<SyncError>,
    result: Option<ErdGraph>,
    stopped: bool)

  /**
   * The handling of one event: it goes to `onProgress`; a `done` event with a
   * graph sets both graphs, an `error` event records its message and stops.
   */
  function Handle(h: Handled, e: SyncEvent): Handled {
    if h.stopped then h
    else
      var h' := h.(delivered := h.delivered + [e]);
      if IsResult(e) then h'.(graph := e.graph, result := e.graph)
      else if e.step == Error then h'.(error := Some(Message(e.message)), stopped := true)
      else h'
  }

  function HandleOpt(h: Handled, e: Option<SyncEvent>): Handled {
    if e.Some? then Handle(h, e.value) else h
  }

  /** The events handled one after the other. */
  function HandleAll(h: Handled, events: seq<SyncEvent>): Handled {
    if |events| == 0 then h else Handle(HandleAll(h, events[..|events| - 1]), events[|events| - 1])
  }

  lemma {:induction false} HandleAllAppend(h: Handled, a: seq<SyncEvent>, b: seq<SyncEvent>)
    ensures HandleAll(h, a + b) == HandleAll(HandleAll(h, a), b)
    decreases |b|
  {
    if |b| == 0 {
      assert a + b == a;
    } else {
      assert (a + b)[..|a + b| - 1] == a + b[..|b| - 1];
      HandleAllAppend(h, a, b[..|b| - 1]);
    }
  }

  /** Once stopped, nothing more is handled. */
  lemma {:induction false} HandleAllStopped(h: Handled, events: seq<SyncEvent>)
    requires h.stopped
    ensures HandleAll(h, events) == h
    decreases |events|
  {
    if |events| > 0 {
      HandleAllStopped(h, events[..|events| - 1]);
    }
  }

  /**
   * What handling a run of events does: every event up to and including the
   * first `error` event reaches `onProgress`, in order, and nothing after it;
   * the graph is that of the last `done` event before it; the error event's
   * message is recorded. Without an error event all events are delivered
   * and the result is the graph of the last `done` event.
   */
  lemma {:induction false} HandleAllSpec(h: Handled, events: seq<SyncEvent>)
    requires !h.stopped
    ensures var r := HandleAll(h, events);
      FirstError(events).Some? ==>
        var e := FirstError(events).value;
        && r.stopped
        && r.delivered == h.delivered + events[..e + 1]
        && r.graph == Latest(h.graph, events[..e])
        && r.result == Latest(h.result, events[..e])
        && r.error == Some(Message(events[e].message))
    ensures var r := HandleAll(h, events);
      FirstError(events).None? ==>
        && !r.stopped
        && r.delivered == h.delivered + events
        && r.graph == Latest(h.graph, events)
        && r.result == Latest(h.result, events)
        && r.error == h.error
    decreases |events|
  {
    if |events| > 0 {
      var init, x := events[..|events| - 1], events[|events| - 1];
      assert events == init + [x];
      HandleAllSpec(h, init);
      var r0 := HandleAll(h, init);
      if FirstError(init).Some? {
        var e := FirstError(init).value;
        FirstErrorPrefix(init, [x]);
        assert events[..e + 1] == init[..e + 1] && events[..e] == init[..e];
      } else {
        EventStep(init, x);
        LatestAppend(h.graph, init, [x]);
        LatestAppend(h.result, init, [x]);
        assert [x][..0] == [];
        if x.step == Error {
          assert events[..|init|] == init;
        }
      }
    }
  }

  // ------------------------------------------------------------ the hook

  /** What `sync` records with `setError`: a message, or the status of a refused request. */
  datatype SyncError = Message(text: string) | RequestFailed(status: int)

  /** The request `sync` posts: its project and the optional connection of its body. */
  datatype SyncRequest = SyncRequest(projectId: string, connectionId: Option<string>)

  /**
   * What `fetch` gives for the sync request: the chunks of a readable body
   * and, when reading then throws, its message; or a refused request with
   * its status and the `message` of its JSON body, if any; or a thrown error.
   */
  datatype SyncResponse =
    | Streamed(chunks: seq<string>, readFailure: Option<string>)
    | Refused(status: int, bodyMessage: Option<string>)
    | Thrown(message: string)

  /** What `erdApi.get` gives: the stored graph, or an error with its message. */
  datatype GetResponse = Got(graph: ErdGraph) | GetFailed(message: string)

  /** The state of one `useErdGraph(projectId)` hook. */
  class ErdGraphHook {
    const projectId: Option<string>
    var graph: Option<ErdGraph>
    var isLoading: bool
    var error: Option<SyncError>
    /** The events handed to `onProgress`, in order. */
    var progress: seq<SyncEvent>
    /** The sync requests posted. */
    var requests: seq<SyncRequest>
    /** Where the page was sent, if anywhere. */
    var location: Option<string>

    constructor(projectId: Option<string>)
      ensures this.projectId == projectId
      ensures graph.None? && !isLoading && error.None?
      ensures progress == [] && requests == [] && location.None?
    {
      this.projectId := projectId;
      graph := None;
      isLoading := false;
      error := None;
      progress := [];
      requests := [];
      location := None;
    }

    /** `load`: nothing without a project; else the stored graph, or the error and no graph. */
    method Load(get: GetResponse)
      modifies this
      ensures !Truthy(projectId) ==> graph == old(graph) && error == old(error) && isLoading == old(isLoading)
      ensures Truthy(projectId) ==> !isLoading
      ensures Truthy(projectId) && get.Got? ==> graph == Some(get.graph) && error.None?
      ensures Truthy(projectId) && get.GetFailed? ==> graph.None? && error == Some(Message(get.message))
      ensures progress == old(progress) && requests == old(requests) && location == old(location)
    {
      if !Truthy(projectId) {
        return;
      }
      isLoading := true;
      error := None;
      match get {
        case Got(g) =>
          graph := Some(g);
        case GetFailed(m) =>
          error := Some(Message(m));
          graph := None;
      }
      isLoading := false;
    }

    /**
     * One segment of the inner loop: its event, if any, goes to `onProgress`
     * and is handled; `stop` is the `return null` of an `error` event.
     */
    method HandleSegment(segment: string, parse: string -> Option<SyncEvent>, resultGraph: Option<ErdGraph>)
      returns (stop: bool, result: Option<ErdGraph>)
      modifies this
      ensures Handled(progress, graph, error, result, stop)
        == HandleOpt(Handled(old(progress), old(graph), old(error), resultGraph, false), SegmentEvent(segment, parse))
      ensures isLoading == old(isLoading) && requests == old(requests) && location == old(location)
    {
      stop, result := false, resultGraph;
      var line := Trim(segment);
      if !StartsWith(line, "data:") {
        return;
      }
      var event := parse(Trim(line[5..]));
      if event.None? {
        return;
      }
      var ev := event.value;
      progress := progress + [ev];
      if ev.step == Done && ev.graph.Some? {
        result := ev.graph;
        graph := ev.graph;
      } else if ev.step == Error {
        error := Some(Message(ev.message));
        stop := true;
      }
    }

    /** The inner loop of `sync` over the segments split off one chunk, up to an `error` event. */
    method HandleSegments(segments: seq<string>, parse: string -> Option<SyncEvent>, resultGraph: Option<ErdGraph>)
      returns (stop: bool, result: Option<ErdGraph>)
      modifies this
      ensures Handled(progress, graph, error, result, stop)
        == HandleAll(Handled(old(progress), old(graph), old(error), resultGraph, false), Events(segments, EventOf(parse)))
      ensures isLoading == old(isLoading) && requests == old(requests) && location == old(location)
    {
      ghost var h0 := Handled(progress, graph, error, resultGraph, false);
      stop, result := false, resultGraph;
      for j := 0 to |segments|
        invariant Handled(progress, graph, error, result, false) == HandleAll(h0, Events(segments[..j], EventOf(parse)))
        invariant isLoading == old(isLoading) && requests == old(requests) && location == old(location)
      {
        var s;
        s, result := HandleSegment(segments[j], parse, result);
        SegmentsStep(h0, segments, j, parse);
        if s {
          StopAtSegment(h0, segments, j, parse);
          return true, result;
        }
      }
      assert segments[..|segments|] == segments;
    }

    /**
     * The read loop of `sync`: each chunk is appended to the buffer, the
     * buffer is split at the separators, the last part is kept and the
     * others are handled, until an `error` event returns. Its effect is that
     * of handling every event of the stream in order.
     */
    method ReadStream(chunks: seq<string>, readFailure: Option<string>, parse: string -> Option<SyncEvent>)
      returns (r: Option<ErdGraph>)
      modifies this
      ensures var h := HandleAll(Handled(old(progress), old(graph), old(error), None, false), StreamEvents(chunks, parse));
        && progress == h.delivered && graph == h.graph
        && (h.stopped ==> r.None? && error == h.error)
        && (!h.stopped && readFailure.None? ==> r == h.result && error == h.error)
        && (!h.stopped && readFailure.Some? ==> r.None? && error == Some(Message(readFailure.value)))
      ensures isLoading == old(isLoading) && requests == old(requests) && location == old(location)
    {
      ghost var h0 := Handled(progress, graph, error, None, false);
      var buf := "";
      var resultGraph: Option<ErdGraph> := None;
      ghost var segments: seq<string> := [];
      var k := 0;
      while k < |chunks|
        invariant 0 <= k <= |chunks|
        invariant Framed(chunks[..k]) == Frames(segments, buf)
        invariant Handled(progress, graph, error, resultGraph, false) == HandleAll(h0, Events(segments, EventOf(parse)))
        invariant isLoading == old(isLoading) && requests == old(requests) && location == old(location)
      {
        var ready;
        ready, buf := NextFrames(chunks, k, segments, buf);
        var stop;
        stop, resultGraph := HandleSegments(ready, parse, resultGraph);
        ChunkStep(h0, segments, ready, parse);
        if stop {
          StopInChunk(h0, chunks, k, segments + ready, parse);
          return None;
        }
        segments := segments + ready;
        k := k + 1;
      }
      assert chunks[..k] == chunks;
      if readFailure.Some? {
        error := Some(Message(readFailure.value));
        return None;
      }
      return resultGraph;
    }

    /**
     * `sync`: without a project, nothing happens and nothing is requested;
     * else the request is posted and its answer read. A refused request
     * records the body's message, or the status when there is none, and a
     * 401 sends the page to `/login`; a thrown error records its message.
     * A streamed answer hands the events to `onProgress` up to and including
     * the first `error` event, which records its message and returns nothing;
     * the graph of each `done` event becomes the hook's graph, and the last
     * one is returned when the stream ends without an error.
     */
    method Sync(connectionId: Option<string>, response: SyncResponse, parse: string -> Option<SyncEvent>)
      returns (r: Option<ErdGraph>)
      modifies this
      ensures !Truthy(projectId) ==> r.None? && requests == old(requests) && location == old(location)
      ensures !Truthy(projectId) ==> graph == old(graph) && error == old(error) && progress == old(progress) && isLoading == old(isLoading)
      ensures Truthy(projectId) ==> !isLoading
      ensures Truthy(projectId) ==> requests == old(requests) + [SyncRequest(projectId.value, if Truthy(connectionId) then connectionId else None)]
      ensures Truthy(projectId) && response.Refused? ==>
        && r.None? && graph == old(graph) && progress == old(progress)
        && error == Some(if response.bodyMessage.Some? then Message(response.bodyMessage.value) else RequestFailed(response.status))
        && location == (if response.status == 401 then Some("/login") else old(location))
      ensures Truthy(projectId) && response.Thrown? ==>
        && r.None? && graph == old(graph) && progress == old(progress)
        && error == Some(Message(response.message)) && location == old(location)
      ensures Truthy(projectId) && response.Streamed? ==>
        var events := StreamEvents(response.chunks, parse);
        && location == old(location)
        && (FirstError(events).Some? ==>
              var e := FirstError(events).value;
              && r.None?
              && progress == old(progress) + events[..e + 1]
              && graph == Latest(old(graph), events[..e])
              && error == Some(Message(events[e].message)))
        && (FirstError(events).None? ==>
              && progress == old(progress) + events
              && graph == Latest(old(graph), events)
              && (response.readFailure.None? ==> r == LastGraph(events) && error.None?)
              && (response.readFailure.Some? ==> r.None? && error == Some(Message(response.readFailure.value))))
    {
      if !Truthy(projectId) {
        return None;
      }
      isLoading := true;
      error := None;
      requests := requests + [SyncRequest(projectId.value, if Truthy(connectionId) then connectionId else None)];
      match response {
        case Refused(status, bodyMessage) =>
          if status == 401 {
            location := Some("/login");
          }
          error := Some(if bodyMessage.Some? then Message(bodyMessage.value) else RequestFailed(status));
          r := None;
        case Thrown(message) =>
          error := Some(Message(message));
          r := None;
        case Streamed(chunks, readFailure) =>
          ghost var h0 := Handled(progress, graph, error, None, false);
          r := ReadStream(chunks, readFailure, parse);
          HandleAllSpec(h0, StreamEvents(chunks, parse));
      }
      isLoading := false;
    }
  }

  /** One more segment handles its event, if it has one. */
  lemma {:induction false} SegmentsStep(h: Handled, segments: seq<string>, j: nat, parse: string -> Option<SyncEvent>)
    requires j < |segments|
    ensures HandleAll(h, Events(segments[..j + 1], EventOf(parse)))
      == HandleOpt(HandleAll(h, Events(segments[..j], EventOf(parse))), SegmentEvent(segments[j], parse))
  {
    assert segments[..j + 1][..j] == segments[..j];
    var a := Events(segments[..j], EventOf(parse));
    var e := SegmentEvent(segments[j], parse);
    assert Events(segments[..j + 1], EventOf(parse)) == a + OptionSeq(e);
    if e.Some? {
      assert (a + [e.value])[..|a|] == a;
    } else {
      assert a + [] == a;
    }
  }

  /** The events of a run of segments begin with the events of any prefix of it. */
  lemma {:induction false} EventsOfPrefix(done: seq<string>, all: seq<string>, eventOf: string -> Option<SyncEvent>)
    requires |done| <= |all| && done == all[..|done|]
    ensures Events(all, eventOf) == Events(done, eventOf) + Events(all[|done|..], eventOf)
  {
    var rest := all[|done|..];
    assert all == done + rest by {
      assert |all| == |done + rest|;
      forall i | 0 <= i < |all| ensures all[i] == (done + rest)[i] {
        if i >= |done| {
          assert rest[i - |done|] == all[i];
        }
      }
    }
    EventsAppend(done, rest, eventOf);
  }

  /** Handling that stops within a prefix of the segments is the handling of all of them. */
  lemma {:induction false} StoppedPrefix(h: Handled, done: seq<string>, all: seq<string>, parse: string -> Option<SyncEvent>)
    requires |done| <= |all| && done == all[..|done|]
    requires HandleAll(h, Events(done, EventOf(parse))).stopped
    ensures HandleAll(h, Events(all, EventOf(parse))) == HandleAll(h, Events(done, EventOf(parse)))
  {
    var a := Events(done, EventOf(parse));
    var b := Events(all[|done|..], EventOf(parse));
    EventsOfPrefix(done, all, EventOf(parse));
    HandleAllAppend(h, a, b);
    HandleAllStopped(HandleAll(h, a), b);
  }

  /** An `error` event in segment `j` ends the handling of the segments. */
  lemma {:induction false} StopAtSegment(h: Handled, segments: seq<string>, j: nat, parse: string -> Option<SyncEvent>)
    requires j < |segments|
    requires HandleAll(h, Events(segments[..j + 1], EventOf(parse))).stopped
    ensures HandleAll(h, Events(segments, EventOf(parse))) == HandleAll(h, Events(segments[..j + 1], EventOf(parse)))
  {
    StoppedPrefix(h, segments[..j + 1], segments, parse);
  }

  /** The segments of one more chunk are handled after the ones before. */
  lemma {:induction false} ChunkStep(h: Handled, segments: seq<string>, ready: seq<string>, parse: string -> Option<SyncEvent>)
    ensures HandleAll(h, Events(segments + ready, EventOf(parse)))
      == HandleAll(HandleAll(h, Events(segments, EventOf(parse))), Events(ready, EventOf(parse)))
  {
    EventsAppend(segments, ready, EventOf(parse));
    HandleAllAppend(h, Events(segments, EventOf(parse)), Events(ready, EventOf(parse)));
  }

  /** An `error` event in chunk `k` ends the handling of the whole stream. */
  lemma {:induction false} StopInChunk(h: Handled, chunks: seq<string>, k: nat, done: seq<string>, parse: string -> Option<SyncEvent>)
    requires k < |chunks|
    requires Framed(chunks[..k + 1]).segments == done
    requires HandleAll(h, Events(done, EventOf(parse))).stopped
    ensures HandleAll(h, StreamEvents(chunks, parse)) == HandleAll(h, Events(done, EventOf(parse)))
  {
    FramedPrefix(chunks, k + 1);
    StoppedPrefix(h, done, Framed(chunks).segments, parse);
  }
}
