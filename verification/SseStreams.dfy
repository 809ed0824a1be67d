/**
 internal/execution: four runners turn provider lines and timers into a channel
 of chunks, and one consumer turns a channel into a benchmark sample. Each
 runner is a `select` loop; a tick is whatever the loop was given next, together
 with how many of the sends it causes succeed before the context is done.
 */
module SseStreams {
  import opened Wrappers

  datatype Failure =
    | FirstByteTimeout
    | IdleGapTimeout
    | Truncated
    | Network(cause: string)
    | Decode(codec: string, cause: string)
    | Provider(kind: string)

  datatype Chunk = Delta(text: string) | Done | Err(failure: Failure)

  /** `Eof` is the closed line channel: the body has ended, or the scanner gave way to a finished context. */
  datatype Event = Line(text: string) | ScanError(cause: string) | Eof | FirstByteTimer | IdleTimer | ContextDone

  datatype Tick = Tick(event: Event, room: nat)

  // ----- the wires ----------------------------------------------------------------

  /** What a `data:` payload asks of the loop. */
  datatype Frame = Skip | Bad(failure: Failure) | Emit(delta: string, done: bool)

  /** A wire is how payloads are read and what a clean end of the body means. */
  datatype Wire = Wire(parse: string -> Frame, eof: Chunk)

  /** Decoded JSON payloads; decoding itself is a parameter. */
  datatype OpenAIBody = OpenAIMalformed(cause: string) | Choices(contents: seq<string>)

  datatype GeminiBody = GeminiMalformed(cause: string) | Candidates(all: seq<Candidate>)

  datatype Candidate = Candidate(parts: seq<Option<string>>, finish: string)

  datatype AnthropicBody =
    | AnthropicMalformed(cause: string)
    | StreamEvent(kind: string, deltaKind: string, text: string, error: Option<string>)

  function OpenAIFrame(codec: string, json: string -> OpenAIBody, data: string): Frame {
    if data == "[DONE]" then Emit("", true)
    else
      match json(data)
      case OpenAIMalformed(cause) => Bad(Decode(codec, cause))
      case Choices(contents) => if contents == [] then Skip else Emit(contents[0], false)
  }

  function Texts(parts: seq<Option<string>>): string {
    if parts == [] then ""
    else Texts(parts[..|parts| - 1]) + if parts[|parts| - 1].Some? then parts[|parts| - 1].value else ""
  }

  function GeminiFrame(json: string -> GeminiBody, data: string): Frame {
    match json(data)
    case GeminiMalformed(cause) => Bad(Decode("gemini", cause))
    case Candidates(all) =>
      if all == [] then Skip
      else Emit(Texts(all[0].parts), all[0].finish != "" && all[0].finish != "FINISH_REASON_UNSPECIFIED")
  }

  function AnthropicFrame(json: string -> AnthropicBody, data: string): Frame {
    match json(data)
    case AnthropicMalformed(cause) => Bad(Decode("anthropic", cause))
    case StreamEvent(kind, deltaKind, text, error) =>
      if kind == "error" then
        Bad(Provider(if error.Some? && error.value != "" then error.value else "provider stream error"))
      else if kind == "content_block_delta" then (if deltaKind == "text_delta" then Emit(text, false) else Skip)
      else if kind == "message_stop" then Emit("", true)
      else Skip
  }

  const OPENAI := "openai-compatible"
  const OAUTH := "openai-chat"

  function OpenAIWire(codec: string, json: string -> OpenAIBody): Wire {
    Wire(data => OpenAIFrame(codec, json, data), Err(Truncated))
  }

  function GeminiWire(json: string -> GeminiBody): Wire {
    Wire(data => GeminiFrame(json, data), Done)
  }

  function AnthropicWire(json: string -> AnthropicBody): Wire {
    Wire(data => AnthropicFrame(json, data), Done)
  }

  // ----- one turn of the loop ----------------------------------------------------------

  /** `used` counts the ticks taken before the channel was closed. */
  datatype Stream = Stream(out: seq<Chunk>, firstByteSeen: bool, closed: bool, used: nat)

  const OPEN := Stream([], false, false, 0)

  const DATA := "data: "

  predicate IsData(line: string) { DATA <= line }

  /** The last chunk of a stream: sent if there is room, and the channel closes either way. */
  function Finish(s: Stream, c: Chunk, room: nat): Stream {
    s.(out := s.out + if room > 0 then [c] else [], closed := true, used := s.used + 1)
  }

  function Chunks(delta: string, done: bool): seq<Chunk> {
    (if delta != "" then [Delta(delta)] else []) + if done then [Done] else []
  }

  /** A refused send ends the stream; so does a delivered `Done`. */
  function Deliver(s: Stream, delta: string, done: bool, room: nat): Stream {
    var cs := Chunks(delta, done);
    var sent := if room < |cs| then cs[..room] else cs;
    s.(out := s.out + sent, closed := done || |sent| < |cs|, used := s.used + 1)
  }

  function Take(w: Wire, s: Stream, line: string, room: nat): Stream {
    var seen := s.(firstByteSeen := s.firstByteSeen || line != "");
    if !IsData(line) then seen.(used := s.used + 1)
    else
      match w.parse(line[|DATA|..])
      case Skip => seen.(used := s.used + 1)
      case Bad(failure) => Finish(seen, Err(failure), room)
      case Emit(delta, done) => Deliver(seen, delta, done, room)
  }

  function Turn(w: Wire, s: Stream, t: Tick): Stream {
    if s.closed then s
    else
      match t.event
      case ContextDone => s.(closed := true, used := s.used + 1)
      case FirstByteTimer =>
        if s.firstByteSeen then s.(used := s.used + 1) else Finish(s, Err(FirstByteTimeout), t.room)
      case IdleTimer => Finish(s, Err(IdleGapTimeout), t.room)
      case Eof => Finish(s, w.eof, t.room)
      case ScanError(cause) => Finish(s, Err(Network(cause)), t.room)
      case Line(text) => Take(w, s, text, t.room)
  }

  function Ran(w: Wire, ticks: seq<Tick>): Stream {
    if ticks == [] then OPEN else Turn(w, Ran(w, ticks[..|ticks| - 1]), ticks[|ticks| - 1])
  }

  lemma RanOneMore(w: Wire, ticks: seq<Tick>, i: nat)
    requires i < |ticks|
    ensures Ran(w, ticks[..i + 1]) == Turn(w, Ran(w, ticks[..i]), ticks[i])
  {
    assert ticks[..i + 1][..i] == ticks[..i];
  }

  lemma {:induction false} ClosedStaysClosed(w: Wire, ticks: seq<Tick>, n: nat)
    requires n <= |ticks| && Ran(w, ticks[..n]).closed
    ensures Ran(w, ticks) == Ran(w, ticks[..n])
  {
    if n < |ticks| {
      assert ticks[..|ticks| - 1][..n] == ticks[..n];
      ClosedStaysClosed(w, ticks[..|ticks| - 1], n);
    } else {
      assert ticks[..n] == ticks;
    }
  }

  // ----- the four runners ------------------------------------------------------------------

  /** A send that gives way to a finished context. */
  method TrySend(out: seq<Chunk>, c: Chunk, room: nat) returns (sent: bool, longer: seq<Chunk>)
    ensures sent == (room > 0) && longer == if sent then out + [c] else out
  {
    sent := room > 0;
    longer := if sent then out + [c] else out;
  }

  method RunOpenAISSE(ticks: seq<Tick>, json: string -> OpenAIBody) returns (out: seq<Chunk>, closed: bool)
    ensures var run := Ran(OpenAIWire(OPENAI, json), ticks);
            out == run.out && closed == run.closed
  {
    ghost var w := OpenAIWire(OPENAI, json);
    out, closed := [], false;
    var firstByteSeen := false;
    for i := 0 to |ticks|
      invariant Ran(w, ticks[..i]) == Stream(out, firstByteSeen, false, i)
    {
      var room := ticks[i].room;
      RanOneMore(w, ticks, i);
      ghost var was := out;
      match ticks[i].event {
        case ContextDone =>
          closed := true;
        case FirstByteTimer =>
          if !firstByteSeen {
            if room > 0 { out := out + [Err(FirstByteTimeout)]; }
            closed := true;
          }
        case IdleTimer =>
          if room > 0 { out := out + [Err(IdleGapTimeout)]; }
          closed := true;
        case Eof =>
          // A clean end without the marker is a truncation, not a completion.
          if room > 0 { out := out + [Err(Truncated)]; }
          closed := true;
        case ScanError(cause) =>
          if room > 0 { out := out + [Err(Network(cause))]; }
          closed := true;
        case Line(line) =>
          if line != "" { firstByteSeen := true; }
          if IsData(line) {
            var data := line[|DATA|..];
            if data == "[DONE]" {
              if room > 0 { out := out + [Done]; }
              closed := true;
            } else {
              var body := json(data);
              if body.OpenAIMalformed? {
                if room > 0 { out := out + [Err(Decode(OPENAI, body.cause))]; }
                closed := true;
              } else if body.contents != [] && body.contents[0] != "" {
                if room > 0 { out := out + [Delta(body.contents[0])]; } else { closed := true; }
              }
            }
          }
      }
      assert was + [] == was;
      assert Ran(w, ticks[..i + 1]) == Stream(out, firstByteSeen, closed, i + 1);
      if closed {
        ClosedStaysClosed(w, ticks, i + 1);
        return;
      }
    }
    assert ticks[..|ticks|] == ticks;
  }

  method RunOpenAIChatOAuthSSE(ticks: seq<Tick>, json: string -> OpenAIBody) returns (out: seq<Chunk>, closed: bool)
    ensures var run := Ran(OpenAIWire(OAUTH, json), ticks);
            out == run.out && closed == run.closed
  {
    ghost var w := OpenAIWire(OAUTH, json);
    out, closed := [], false;
    var firstByteSeen, sent := false, false;
    for i := 0 to |ticks|
      invariant Ran(w, ticks[..i]) == Stream(out, firstByteSeen, false, i)
    {
      var room := ticks[i].room;
      RanOneMore(w, ticks, i);
      ghost var was := out;
      match ticks[i].event {
        case ContextDone =>
          closed := true;
        case FirstByteTimer =>
          if !firstByteSeen {
            sent, out := TrySend(out, Err(FirstByteTimeout), room);
            closed := true;
          }
        case IdleTimer =>
          sent, out := TrySend(out, Err(IdleGapTimeout), room);
          closed := true;
        case Eof =>
          sent, out := TrySend(out, Err(Truncated), room);
          closed := true;
        case ScanError(cause) =>
          sent, out := TrySend(out, Err(Network(cause)), room);
          closed := true;
        case Line(line) =>
          if line != "" { firstByteSeen := true; }
          if IsData(line) {
            var data := line[|DATA|..];
            if data == "[DONE]" {
              sent, out := TrySend(out, Done, room);
              closed := true;
            } else {
              var body := json(data);
              if body.OpenAIMalformed? {
                sent, out := TrySend(out, Err(Decode(OAUTH, body.cause)), room);
                closed := true;
              } else if body.contents != [] && body.contents[0] != "" {
                sent, out := TrySend(out, Delta(body.contents[0]), room);
                closed := !sent;
              }
            }
          }
      }
      assert was + [] == was;
      assert Ran(w, ticks[..i + 1]) == Stream(out, firstByteSeen, closed, i + 1);
      if closed {
        ClosedStaysClosed(w, ticks, i + 1);
        return;
      }
    }
    assert ticks[..|ticks|] == ticks;
  }

  /** The part Gemini's and Anthropic's runners share: a parsed frame, its delta first. */
  method SendFrame(out: seq<Chunk>, f: Frame, room: nat) returns (longer: seq<Chunk>, closed: bool)
    ensures var s := Stream(out, true, false, 0);
            match f
            case Skip => longer == out && !closed
            case Bad(failure) => longer == Finish(s, Err(failure), room).out && closed
            case Emit(delta, done) =>
              longer == Deliver(s, delta, done, room).out && closed == Deliver(s, delta, done, room).closed
  {
    longer, closed := out, false;
    var left := room;
    var sent := true;
    match f {
      case Skip =>
      case Bad(failure) =>
        sent, longer := TrySend(longer, Err(failure), left);
        closed := true;
        assert out + [] == out;
      case Emit(delta, done) =>
        ghost var cs := Chunks(delta, done);
        if delta != "" {
          sent, longer := TrySend(longer, Delta(delta), left);
          if !sent {
            assert cs[..0] == [] && out + [] == out;
            return longer, true;
          }
          left := left - 1;
        }
        if done {
          ghost var before := longer;
          sent, longer := TrySend(longer, Done, left);
          closed := true;
          if sent {
            assert longer == out + cs;
          } else {
            assert longer == out + cs[..room];
          }
        } else {
          assert longer == out + cs;
        }
    }
  }

  method RunGeminiSSE(ticks: seq<Tick>, json: string -> GeminiBody) returns (out: seq<Chunk>, closed: bool)
    ensures var run := Ran(GeminiWire(json), ticks);
            out == run.out && closed == run.closed
  {
    ghost var w := GeminiWire(json);
    out, closed := [], false;
    var firstByteSeen, sent := false, false;
    for i := 0 to |ticks|
      invariant Ran(w, ticks[..i]) == Stream(out, firstByteSeen, false, i)
    {
      var room := ticks[i].room;
      RanOneMore(w, ticks, i);
      ghost var was := out;
      match ticks[i].event {
        case ContextDone =>
          closed := true;
        case FirstByteTimer =>
          if !firstByteSeen {
            sent, out := TrySend(out, Err(FirstByteTimeout), room);
            closed := true;
          }
        case IdleTimer =>
          sent, out := TrySend(out, Err(IdleGapTimeout), room);
          closed := true;
        case Eof =>
          // Gemini has no marker: the end of the body is the end of the answer.
          sent, out := TrySend(out, Done, room);
          closed := true;
        case ScanError(cause) =>
          sent, out := TrySend(out, Err(Network(cause)), room);
          closed := true;
        case Line(line) =>
          if line != "" { firstByteSeen := true; }
          if IsData(line) {
            out, closed := SendFrame(out, GeminiFrame(json, line[|DATA|..]), room);
          }
      }
      assert was + [] == was;
      assert Ran(w, ticks[..i + 1]) == Stream(out, firstByteSeen, closed, i + 1);
      if closed {
        ClosedStaysClosed(w, ticks, i + 1);
        return;
      }
    }
    assert ticks[..|ticks|] == ticks;
  }

  method RunAnthropicSSE(ticks: seq<Tick>, json: string -> AnthropicBody) returns (out: seq<Chunk>, closed: bool)
    ensures var run := Ran(AnthropicWire(json), ticks);
            out == run.out && closed == run.closed
  {
    ghost var w := AnthropicWire(json);
    out, closed := [], false;
    var firstByteSeen, sent := false, false;
    for i := 0 to |ticks|
      invariant Ran(w, ticks[..i]) == Stream(out, firstByteSeen, false, i)
    {
      var room := ticks[i].room;
      RanOneMore(w, ticks, i);
      ghost var was := out;
      match ticks[i].event {
        case ContextDone =>
          closed := true;
        case FirstByteTimer =>
          if !firstByteSeen {
            sent, out := TrySend(out, Err(FirstByteTimeout), room);
            closed := true;
          }
        case IdleTimer =>
          sent, out := TrySend(out, Err(IdleGapTimeout), room);
          closed := true;
        case Eof =>
          sent, out := TrySend(out, Done, room);
          closed := true;
        case ScanError(cause) =>
          sent, out := TrySend(out, Err(Network(cause)), room);
          closed := true;
        case Line(line) =>
          if line != "" { firstByteSeen := true; }
          if IsData(line) {
            out, closed := SendFrame(out, AnthropicFrame(json, line[|DATA|..]), room);
          }
      }
      assert was + [] == was;
      assert Ran(w, ticks[..i + 1]) == Stream(out, firstByteSeen, closed, i + 1);
      if closed {
        ClosedStaysClosed(w, ticks, i + 1);
        return;
      }
    }
    assert ticks[..|ticks|] == ticks;
  }
}
