/**
 What the stream runners promise their consumers for every sequence of ticks,
 what the benchmark consumer may conclude, and the registry that cancels them.
 */
module SseContract {
  import opened SseStreams
  import opened Wrappers

  // ----- deltas, then one end --------------------------------------------------------

  /** Non-empty deltas, then at most one terminal chunk, which only a closed stream has. */
  ghost predicate Orderly(s: Stream) {
    && (forall i | 0 <= i < |s.out| :: s.out[i].Delta? ==> s.out[i].text != "")
    && (forall i | 0 <= i < |s.out| - 1 :: s.out[i].Delta?)
    && (!s.closed ==> forall i | 0 <= i < |s.out| :: s.out[i].Delta?)
  }

  predicate Ended(s: Stream) { s.out != [] && !s.out[|s.out| - 1].Delta? }

  /** The context outlives every send. */
  predicate Uncancelled(t: Tick) { !t.event.ContextDone? && t.room >= 2 }

  lemma TurnIsOrderly(w: Wire, s: Stream, t: Tick)
    requires Orderly(s) && !w.eof.Delta?
    ensures Orderly(Turn(w, s, t))
    ensures Uncancelled(t) && !s.closed && Turn(w, s, t).closed ==> Ended(Turn(w, s, t))
  {
  }

  /** Every runner's output is orderly; a stream that closed uncancelled says how it ended. */
  lemma {:induction false} EveryStreamEndsOnce(w: Wire, ticks: seq<Tick>)
    requires !w.eof.Delta?
    ensures Orderly(Ran(w, ticks))
    ensures Ran(w, ticks).closed && (forall i | 0 <= i < |ticks| :: Uncancelled(ticks[i])) ==> Ended(Ran(w, ticks))
  {
    if ticks != [] {
      EveryStreamEndsOnce(w, ticks[..|ticks| - 1]);
      TurnIsOrderly(w, Ran(w, ticks[..|ticks| - 1]), ticks[|ticks| - 1]);
    }
  }

  // ----- a stream that says `Done` lost nothing -----------------------------------------

  /** The content a tick's payload carries. */
  function Content(w: Wire, t: Tick): seq<Chunk> {
    if t.event.Line? && IsData(t.event.text) then
      match w.parse(t.event.text[|DATA|..])
      case Emit(delta, _) => Chunks(delta, false)
      case _ => []
    else []
  }

  function Contents(w: Wire, ticks: seq<Tick>): seq<Chunk> {
    if ticks == [] then [] else Contents(w, ticks[..|ticks| - 1]) + Content(w, ticks[|ticks| - 1])
  }

  lemma OpenTurn(w: Wire, s: Stream, t: Tick)
    requires !s.closed && !Turn(w, s, t).closed
    ensures Turn(w, s, t).out == s.out + Content(w, t) && Turn(w, s, t).used == s.used + 1
  {
  }

  /** A payload by which the provider itself says that the answer is complete. */
  predicate Finishes(w: Wire, t: Tick) {
    && t.event.Line? && IsData(t.event.text)
    && var f := w.parse(t.event.text[|DATA|..]); f.Emit? && f.done
  }

  /** The ticks that end a stream with `Done`: a clean end, if the wire takes it for one, or a finishing payload. */
  predicate Completes(w: Wire, t: Tick) {
    (t.event.Eof? && w.eof == Done) || Finishes(w, t)
  }

  lemma DoneTurn(w: Wire, s: Stream, t: Tick)
    requires !s.closed && Orderly(s)
    requires Turn(w, s, t).out != [] && Turn(w, s, t).out[|Turn(w, s, t).out| - 1] == Done
    ensures Turn(w, s, t).closed && Turn(w, s, t).used == s.used + 1
    ensures Turn(w, s, t).out == s.out + Content(w, t) + [Done]
    ensures Completes(w, t)
  {
  }

  ghost predicate SaysDone(s: Stream) { s.out != [] && s.out[|s.out| - 1] == Done }

  ghost predicate LostNothing(w: Wire, ticks: seq<Tick>, s: Stream) {
    && s.used <= |ticks|
    && (!s.closed ==> s.used == |ticks| && s.out == Contents(w, ticks))
    && (SaysDone(s) ==> s.used > 0 && s.out == Contents(w, ticks[..s.used]) + [Done] && Completes(w, ticks[s.used - 1]))
  }

  lemma ContentsGrow(w: Wire, ticks: seq<Tick>, t: Tick)
    ensures Contents(w, ticks + [t]) == Contents(w, ticks) + Content(w, t)
  {
    assert (ticks + [t])[..|ticks + [t]| - 1] == ticks;
  }

  lemma ClosingLosesNothing(w: Wire, ticks: seq<Tick>, s: Stream, t: Tick)
    requires Orderly(s) && !s.closed && s.used == |ticks| && s.out == Contents(w, ticks)
    requires Turn(w, s, t).closed
    ensures LostNothing(w, ticks + [t], Turn(w, s, t))
  {
    var after, all := Turn(w, s, t), ticks + [t];
    assert after.used == |all| && all[..after.used] == all;
    if SaysDone(after) {
      DoneTurn(w, s, t);
      ContentsGrow(w, ticks, t);
    }
  }

  lemma TurnLosesNothing(w: Wire, ticks: seq<Tick>, s: Stream, t: Tick)
    requires Orderly(s) && LostNothing(w, ticks, s)
    ensures LostNothing(w, ticks + [t], Turn(w, s, t))
  {
    if s.closed {
      assert Turn(w, s, t) == s;
      assert (ticks + [t])[..s.used] == ticks[..s.used];
    } else if Turn(w, s, t).closed {
      ClosingLosesNothing(w, ticks, s, t);
    } else {
      OpenTurn(w, s, t);
      ContentsGrow(w, ticks, t);
      OpenSaysNoEnd(w, s, t);
    }
  }

  lemma OpenSaysNoEnd(w: Wire, s: Stream, t: Tick)
    requires Orderly(s) && !s.closed && !Turn(w, s, t).closed
    ensures !SaysDone(Turn(w, s, t))
  {
    if SaysDone(Turn(w, s, t)) { DoneTurn(w, s, t); }
  }

  /**
   A stream that says `Done` was completed by its last tick, and delivered all
   the content of every tick up to it, in order.
   */
  lemma {:induction false} DoneIsComplete(w: Wire, ticks: seq<Tick>)
    requires !w.eof.Delta?
    ensures LostNothing(w, ticks, Ran(w, ticks))
  {
    if ticks != [] {
      var front, t := ticks[..|ticks| - 1], ticks[|ticks| - 1];
      DoneIsComplete(w, front);
      EveryStreamEndsOnce(w, front);
      TurnLosesNothing(w, front, Ran(w, front), t);
      assert front + [t] == ticks;
    }
  }

  // ----- a body that was cut off -----------------------------------------------------------

  ghost predicate NoneFinishes(w: Wire, ticks: seq<Tick>) { forall i | 0 <= i < |ticks| :: !Finishes(w, ticks[i]) }

  /** The line channel was closed before any other end, and what that means could be sent. */
  predicate LinesEnded(ticks: seq<Tick>, s: Stream) {
    s.closed && 0 < s.used <= |ticks| && ticks[s.used - 1].event.Eof? && ticks[s.used - 1].room > 0
  }

  /** No payload finished the answer before the stream closed; an end of the lines was answered as the wire has it. */
  ghost predicate Unfinished(w: Wire, ticks: seq<Tick>, s: Stream) {
    && s.used <= |ticks|
    && (!s.closed ==> s.used == |ticks| && NoneFinishes(w, ticks))
    && (s.closed ==> s.used > 0 && NoneFinishes(w, ticks[..s.used - 1]))
    && (LinesEnded(ticks, s) ==> s.out != [] && s.out[|s.out| - 1] == w.eof)
  }

  lemma FinishingCloses(w: Wire, s: Stream, t: Tick)
    requires !s.closed && !Turn(w, s, t).closed
    ensures !Finishes(w, t)
  {
  }

  lemma EndIsAnswered(w: Wire, s: Stream, t: Tick)
    requires !s.closed && t.event.Eof? && t.room > 0
    ensures Turn(w, s, t).out == s.out + [w.eof]
  {
  }

  lemma TurnUnfinished(w: Wire, ticks: seq<Tick>, s: Stream, t: Tick)
    requires Unfinished(w, ticks, s)
    ensures Unfinished(w, ticks + [t], Turn(w, s, t))
  {
    var after, all := Turn(w, s, t), ticks + [t];
    if s.closed {
      assert all[..s.used - 1] == ticks[..s.used - 1] && all[s.used - 1] == ticks[s.used - 1];
    } else if after.closed {
      assert after.used == |all| && all[..after.used - 1] == ticks;
      if t.event.Eof? && t.room > 0 { EndIsAnswered(w, s, t); }
    } else {
      OpenTurn(w, s, t);
      FinishingCloses(w, s, t);
    }
  }

  lemma {:induction false} StreamsAreUnfinished(w: Wire, ticks: seq<Tick>)
    ensures Unfinished(w, ticks, Ran(w, ticks))
  {
    if ticks != [] {
      var front, t := ticks[..|ticks| - 1], ticks[|ticks| - 1];
      StreamsAreUnfinished(w, front);
      TurnUnfinished(w, front, Ran(w, front), t);
      assert front + [t] == ticks;
    }
  }

  /** The stream says `Done` though no payload it read did. */
  ghost predicate UnmarkedDone(w: Wire, ticks: seq<Tick>, s: Stream) {
    SaysDone(s) && s.used <= |ticks| && NoneFinishes(w, ticks[..s.used])
  }

  /**
   A stream passes for complete without the provider having said so exactly on a
   wire that takes the end of the lines for the end of the answer, and exactly
   when the lines just ended: on Gemini's and Anthropic's, never on OpenAI's.
   The lines end with the body, or where a finished context stops the scanner.
   */
  lemma UnmarkedDoneExactly(w: Wire, ticks: seq<Tick>)
    requires !w.eof.Delta?
    ensures UnmarkedDone(w, ticks, Ran(w, ticks)) <==> w.eof == Done && LinesEnded(ticks, Ran(w, ticks))
  {
    var s := Ran(w, ticks);
    StreamsAreUnfinished(w, ticks);
    DoneIsComplete(w, ticks);
    EveryStreamEndsOnce(w, ticks);
    if UnmarkedDone(w, ticks, s) {
      assert !Finishes(w, ticks[..s.used][s.used - 1]);
      DoneHadRoom(w, ticks);
    }
    if LinesEnded(ticks, s) {
      assert ticks[..s.used] == ticks[..s.used - 1] + [ticks[s.used - 1]];
    }
  }

  lemma DoneNeedsRoom(w: Wire, s: Stream, t: Tick)
    requires Orderly(s) && !s.closed && t.event.Eof? && SaysDone(Turn(w, s, t))
    ensures t.room > 0
  {
  }

  /** A `Done` said at the end of the body was sent, so there was room for it. */
  lemma {:induction false} DoneHadRoom(w: Wire, ticks: seq<Tick>)
    requires !w.eof.Delta? && SaysDone(Ran(w, ticks))
    ensures var s := Ran(w, ticks);
            s.closed && 0 < s.used <= |ticks| && (ticks[s.used - 1].event.Eof? ==> ticks[s.used - 1].room > 0)
  {
    DoneIsComplete(w, ticks);
    EveryStreamEndsOnce(w, ticks);
    if ticks != [] {
      var front, t := ticks[..|ticks| - 1], ticks[|ticks| - 1];
      EveryStreamEndsOnce(w, front);
      if Ran(w, front).closed {
        DoneHadRoom(w, front);
      } else {
        DoneIsComplete(w, front);
        if t.event.Eof? { DoneNeedsRoom(w, Ran(w, front), t); }
      }
    }
  }

  /** Whatever was read so far, a body cut off there is delivered as a complete answer by such a wire. */
  lemma CutOffLooksComplete(w: Wire, ticks: seq<Tick>, room: nat)
    requires w.eof == Done && !Ran(w, ticks).closed && room > 0
    ensures Ran(w, ticks + [Tick(Eof, room)]).out == Contents(w, ticks) + [Done]
  {
    var all := ticks + [Tick(Eof, room)];
    assert all[..|all| - 1] == ticks;
    DoneIsComplete(w, ticks);
    EndIsAnswered(w, Ran(w, ticks), Tick(Eof, room));
  }

  // ----- the two OpenAI runners -----------------------------------------------------------

  /** A chunk without the wording that names its codec. */
  function Unworded(c: Chunk): Chunk {
    if c.Err? && c.failure.Decode? then Err(Decode("", c.failure.cause)) else c
  }

  function AllUnworded(cs: seq<Chunk>): seq<Chunk> {
    seq(|cs|, i requires 0 <= i < |cs| => Unworded(cs[i]))
  }

  lemma UnwordedAppends(a: seq<Chunk>, b: seq<Chunk>)
    ensures AllUnworded(a + b) == AllUnworded(a) + AllUnworded(b)
  {
  }

  /** `t` is `bare` with `before` already sent. */
  ghost predicate Adds(before: seq<Chunk>, bare: Stream, t: Stream) {
    t == bare.(out := before + bare.out)
  }

  lemma FinishAdds(s: Stream, c: Chunk, room: nat)
    ensures Adds(s.out, Finish(s.(out := []), c, room), Finish(s, c, room))
  {
    var cs := if room > 0 then [c] else [];
    assert [] + cs == cs;
  }

  lemma DeliverAdds(s: Stream, delta: string, done: bool, room: nat)
    ensures Adds(s.out, Deliver(s.(out := []), delta, done, room), Deliver(s, delta, done, room))
  {
    var cs := Chunks(delta, done);
    var sent := if room < |cs| then cs[..room] else cs;
    assert [] + sent == sent;
  }

  lemma TakeAdds(w: Wire, s: Stream, line: string, room: nat)
    ensures Adds(s.out, Take(w, s.(out := []), line, room), Take(w, s, line, room))
  {
    var seen := s.(firstByteSeen := s.firstByteSeen || line != "");
    assert s.out + [] == s.out;
    if IsData(line) {
      match w.parse(line[|DATA|..])
      case Skip =>
      case Bad(failure) => FinishAdds(seen, Err(failure), room);
      case Emit(delta, done) => DeliverAdds(seen, delta, done, room);
    }
  }

  /** A turn only adds chunks, and what it adds does not depend on those already sent. */
  lemma TurnAdds(w: Wire, s: Stream, t: Tick)
    ensures Adds(s.out, Turn(w, s.(out := []), t), Turn(w, s, t))
  {
    assert s.out + [] == s.out;
    match t.event
    case ContextDone =>
    case FirstByteTimer => FinishAdds(s, Err(FirstByteTimeout), t.room);
    case IdleTimer => FinishAdds(s, Err(IdleGapTimeout), t.room);
    case Eof => FinishAdds(s, w.eof, t.room);
    case ScanError(cause) => FinishAdds(s, Err(Network(cause)), t.room);
    case Line(text) => TakeAdds(w, s, text, t.room);
  }

  lemma PayloadsAgree(json: string -> OpenAIBody, data: string)
    ensures var f, g := OpenAIWire(OPENAI, json).parse(data), OpenAIWire(OAUTH, json).parse(data);
            f == g || (f.Bad? && g.Bad? && Unworded(Err(f.failure)) == Unworded(Err(g.failure)))
  {
  }

  lemma BareTurnsAgree(s: Stream, t: Tick, json: string -> OpenAIBody)
    requires s.out == []
    ensures var x, y := Turn(OpenAIWire(OPENAI, json), s, t), Turn(OpenAIWire(OAUTH, json), s, t);
            && AllUnworded(x.out) == AllUnworded(y.out)
            && x.firstByteSeen == y.firstByteSeen && x.closed == y.closed && x.used == y.used
  {
    if t.event.Line? && IsData(t.event.text) {
      PayloadsAgree(json, t.event.text[|DATA|..]);
    }
  }

  lemma TurnsAgree(a: Stream, b: Stream, t: Tick, json: string -> OpenAIBody)
    requires AllUnworded(a.out) == AllUnworded(b.out)
    requires a.firstByteSeen == b.firstByteSeen && a.closed == b.closed && a.used == b.used
    ensures var x, y := Turn(OpenAIWire(OPENAI, json), a, t), Turn(OpenAIWire(OAUTH, json), b, t);
            && AllUnworded(x.out) == AllUnworded(y.out)
            && x.firstByteSeen == y.firstByteSeen && x.closed == y.closed && x.used == y.used
  {
    var bare := a.(out := []);
    assert bare == b.(out := []);
    TurnAdds(OpenAIWire(OPENAI, json), a, t);
    TurnAdds(OpenAIWire(OAUTH, json), b, t);
    BareTurnsAgree(bare, t, json);
    UnwordedAppends(a.out, Turn(OpenAIWire(OPENAI, json), bare, t).out);
    UnwordedAppends(b.out, Turn(OpenAIWire(OAUTH, json), bare, t).out);
  }

  /** The two implementations of the OpenAI stream contract differ only in how they word a decoding error. */
  lemma {:induction false} OpenAIRunnersAgree(ticks: seq<Tick>, json: string -> OpenAIBody)
    ensures var x, y := Ran(OpenAIWire(OPENAI, json), ticks), Ran(OpenAIWire(OAUTH, json), ticks);
            && AllUnworded(x.out) == AllUnworded(y.out)
            && x.firstByteSeen == y.firstByteSeen && x.closed == y.closed && x.used == y.used
  {
    if ticks != [] {
      OpenAIRunnersAgree(ticks[..|ticks| - 1], json);
      TurnsAgree(Ran(OpenAIWire(OPENAI, json), ticks[..|ticks| - 1]),
        Ran(OpenAIWire(OAUTH, json), ticks[..|ticks| - 1]),
                 ticks[|ticks| - 1], json);
    }
  }

  ghost predicate EndsAtMarker(ticks: seq<Tick>, s: Stream) {
    0 < s.used <= |ticks| && ticks[s.used - 1].event == Line(DATA + "[DONE]")
  }

  lemma MarkerLine(codec: string, json: string -> OpenAIBody, t: Tick)
    requires Completes(OpenAIWire(codec, json), t)
    ensures t.event == Line(DATA + "[DONE]")
  {
    var line := t.event.text;
    assert line == line[..|DATA|] + line[|DATA|..];
  }

  lemma DoneIsMarked(codec: string, json: string -> OpenAIBody, ticks: seq<Tick>, s: Stream)
    requires LostNothing(OpenAIWire(codec, json), ticks, s) && SaysDone(s)
    ensures EndsAtMarker(ticks, s)
  {
    MarkerLine(codec, json, ticks[s.used - 1]);
  }

  /** On an OpenAI wire `Done` was said by the provider: the marker line was the last thing read. */
  lemma OpenAIDoneMeansMarker(codec: string, json: string -> OpenAIBody, ticks: seq<Tick>)
    requires SaysDone(Ran(OpenAIWire(codec, json), ticks))
    ensures EndsAtMarker(ticks, Ran(OpenAIWire(codec, json), ticks))
  {
    DoneIsComplete(OpenAIWire(codec, json), ticks);
    DoneIsMarked(codec, json, ticks, Ran(OpenAIWire(codec, json), ticks));
  }

  // ----- the benchmark sample ---------------------------------------------------------------

  /** A chunk and the clock reading at which it was received, in milliseconds. */
  datatype Arrival = Arrival(chunk: Chunk, at: int)

  datatype Sample = Failed(failure: Failure) | NotOk | Sampled(ttft: int, tokensPerSec: real)

  function ContentTimes(arrivals: seq<Arrival>): seq<int> {
    if arrivals == [] then []
    else
      var a := arrivals[|arrivals| - 1];
      ContentTimes(arrivals[..|arrivals| - 1]) + if a.chunk.Delta? && a.chunk.text != "" then [a.at] else []
  }

  /** One less than the content chunks, over the seconds between the first and the last. */
  function Rate(times: seq<int>): real {
    if |times| < 2 || times[|times| - 1] <= times[0] then 0.0
    else (|times| - 1) as real / ((times[|times| - 1] - times[0]) as real / 1000.0)
  }

  predicate IsFailure(a: Arrival) { a.chunk.Err? }

  /** The consumer: the first error wins; otherwise content and a `Done` make a sample. */
  method MeasureBenchmarkStream(start: int, arrivals: seq<Arrival>) returns (r: Sample)
    ensures r.Failed? <==> exists i :: 0 <= i < |arrivals| && IsFailure(arrivals[i])
    ensures r.Failed? ==> exists i :: 0 <= i < |arrivals| && arrivals[i].chunk == Err(r.failure)
                                      && forall j | 0 <= j < i :: !IsFailure(arrivals[j])
    ensures !r.Failed? ==>
              (r.Sampled? <==>
               ContentTimes(arrivals) != [] && exists i :: 0 <= i < |arrivals| && arrivals[i].chunk == Done)
    ensures r.Sampled? ==>
              r.ttft == ContentTimes(arrivals)[0] - start && r.tokensPerSec == Rate(ContentTimes(arrivals))
  {
    var ttft, firstContentAt, lastContentAt, contentChunks, done := 0, 0, 0, 0, false;
    for i := 0 to |arrivals|
      invariant forall j | 0 <= j < i :: !IsFailure(arrivals[j])
      invariant contentChunks == |ContentTimes(arrivals[..i])|
      invariant contentChunks > 0 ==>
                  && firstContentAt == ContentTimes(arrivals[..i])[0] && ttft == firstContentAt - start
                  && lastContentAt == ContentTimes(arrivals[..i])[contentChunks - 1]
      invariant done <==> exists j :: 0 <= j < i && arrivals[j].chunk == Done
    {
      var c := arrivals[i].chunk;
      assert arrivals[..i + 1][..i] == arrivals[..i];
      if c.Err? {
        assert IsFailure(arrivals[i]);
        return Failed(c.failure);
      }
      if c.Delta? && c.text != "" {
        var now := arrivals[i].at;
        if contentChunks == 0 {
          ttft, firstContentAt := now - start, now;
        }
        lastContentAt := now;
        contentChunks := contentChunks + 1;
      }
      if c.Done? { done := true; }
    }
    assert arrivals[..|arrivals|] == arrivals;
    if contentChunks == 0 || !done { return NotOk; }
    var rate := 0.0;
    if contentChunks >= 2 && lastContentAt > firstContentAt {
      rate := (contentChunks - 1) as real / ((lastContentAt - firstContentAt) as real / 1000.0);
    }
    return Sampled(ttft, rate);
  }

  function ChunksOf(arrivals: seq<Arrival>): seq<Chunk> {
    seq(|arrivals|, i requires 0 <= i < |arrivals| => arrivals[i].chunk)
  }

  /** What a caller knows of the arrivals behind a sample; both directions of the consumer's contract. */
  ghost predicate IsOkFor(arrivals: seq<Arrival>) {
    && (forall i | 0 <= i < |arrivals| :: !IsFailure(arrivals[i]))
    && ContentTimes(arrivals) != []
    && exists i :: 0 <= i < |arrivals| && arrivals[i].chunk == Done
  }

  lemma {:induction false} ContentNeedsADelta(arrivals: seq<Arrival>)
    ensures (forall i | 0 <= i < |arrivals| :: arrivals[i].chunk.Delta? ==> arrivals[i].chunk.text != "")
            ==> (ContentTimes(arrivals) != [] <==> exists i :: 0 <= i < |arrivals| && arrivals[i].chunk.Delta?)
  {
    if arrivals != [] {
      ContentNeedsADelta(arrivals[..|arrivals| - 1]);
    }
  }

  /** Among orderly chunks a `Done` can only be the last. */
  lemma DoneIsLast(s: Stream, arrivals: seq<Arrival>)
    requires Orderly(s) && ChunksOf(arrivals) == s.out && IsOkFor(arrivals)
    ensures SaysDone(s)
  {
    var i :| 0 <= i < |arrivals| && arrivals[i].chunk == Done;
    assert ChunksOf(arrivals)[i] == Done;
  }

  lemma SampleHasADelta(s: Stream, arrivals: seq<Arrival>)
    requires Orderly(s) && ChunksOf(arrivals) == s.out && IsOkFor(arrivals)
    ensures |s.out| > 1
  {
    forall j | 0 <= j < |arrivals| ensures s.out[j] == arrivals[j].chunk {
      assert ChunksOf(arrivals)[j] == arrivals[j].chunk;
    }
    ContentNeedsADelta(arrivals);
    DoneIsLast(s, arrivals);
  }

  /** The stream sent some content, then the provider's marker, and delivered all of it. */
  ghost predicate IsWholeAnswer(w: Wire, ticks: seq<Tick>, s: Stream) {
    && EndsAtMarker(ticks, s)
    && Contents(w, ticks[..s.used]) != []
    && s.out == Contents(w, ticks[..s.used]) + [Done]
  }

  /**
   An OK sample taken from either OpenAI runner, at whatever times its chunks
   arrived, means the provider sent its marker, at least one delta came first,
   nothing failed, and every delta it sent was delivered in order.
   */
  lemma OkSampleMeansCompleteStream(codec: string, json: string -> OpenAIBody, ticks: seq<Tick>, arrivals: seq<Arrival>)
    requires ChunksOf(arrivals) == Ran(OpenAIWire(codec, json), ticks).out && IsOkFor(arrivals)
    ensures IsWholeAnswer(OpenAIWire(codec, json), ticks, Ran(OpenAIWire(codec, json), ticks))
  {
    var w := OpenAIWire(codec, json);
    EveryStreamEndsOnce(w, ticks);
    DoneIsLast(Ran(w, ticks), arrivals);
    SampleHasADelta(Ran(w, ticks), arrivals);
    DoneIsComplete(w, ticks);
    OpenAIDoneMeansMarker(codec, json, ticks);
  }

  /** Gemini's wire has no marker: a body cut off after one delta is taken for a complete answer. */
  lemma GeminiEndOfBodyIsDone(json: string -> GeminiBody, data: string, delta: string)
    requires json(data) == Candidates([Candidate([Some(delta)], "")]) && delta != ""
    ensures Ran(GeminiWire(json), [Tick(Line(DATA + data), 2), Tick(Eof, 2)]).out == [Delta(delta), Done]
  {
    var w := GeminiWire(json);
    var line, end := Tick(Line(DATA + data), 2), Tick(Eof, 2);
    assert (DATA + data)[|DATA|..] == data;
    assert [Some(delta)][..0] == [] && Texts([Some(delta)]) == "" + delta == delta;
    assert [line][..0] == [] && [line, end][..1] == [line];
    assert GeminiFrame(json, data) == Emit(delta, false);
    assert Ran(w, [line]) == Turn(w, OPEN, line);
    assert Ran(w, [line]).out == [] + [Delta(delta)] && !Ran(w, [line]).closed;
  }

  /** Anthropic's has one, and the end of the body without it passes for complete all the same. */
  lemma AnthropicEndOfBodyIsDone(json: string -> AnthropicBody, data: string, delta: string)
    requires json(data) == StreamEvent("content_block_delta", "text_delta", delta, None) && delta != ""
    ensures Ran(AnthropicWire(json), [Tick(Line(DATA + data), 2), Tick(Eof, 2)]).out == [Delta(delta), Done]
  {
    var w := AnthropicWire(json);
    var line, end := Tick(Line(DATA + data), 2), Tick(Eof, 2);
    assert (DATA + data)[|DATA|..] == data;
    assert [line][..0] == [] && [line, end][..1] == [line];
    assert AnthropicFrame(json, data) == Emit(delta, false);
    assert Ran(w, [line]) == Turn(w, OPEN, line);
    assert Ran(w, [line]).out == [] + [Delta(delta)] && !Ran(w, [line]).closed;
  }

  // ----- cancelling ------------------------------------------------------------------------------

  /** `handles` counts registrations; `called` lists the cancel functions run, oldest first. */
  datatype Registry = Registry(cancels: map<string, nat>, handles: nat, called: seq<nat>)

  function Registered(r: Registry, id: string): Registry {
    if id == "" then r else r.(cancels := r.cancels[id := r.handles], handles := r.handles + 1)
  }

  function Unregistered(r: Registry, id: string): Registry {
    if id == "" then r else r.(cancels := r.cancels - {id})
  }

  function Cancelled(r: Registry, id: string): Registry {
    if id in r.cancels then r.(cancels := r.cancels - {id}, called := r.called + [r.cancels[id]]) else r
  }

  class InflightRegistry {
    var cancels: map<string, nat>
    var handles: nat
    var called: seq<nat>

    function Snapshot(): Registry
      reads this
    {
      Registry(cancels, handles, called)
    }

    constructor ()
      ensures Snapshot() == Registry(map[], 0, [])
    {
      cancels, handles, called := map[], 0, [];
    }

    method Register(id: string)
      modifies this
      ensures Snapshot() == Registered(old(Snapshot()), id)
    {
      if id == "" { return; }
      cancels := cancels[id := handles];
      handles := handles + 1;
    }

    method Unregister(id: string)
      modifies this
      ensures Snapshot() == Unregistered(old(Snapshot()), id)
    {
      if id == "" { return; }
      cancels := cancels - {id};
    }

    /** Found and removed under the lock, so a second cancel of the same stream is told it is not in flight. */
    method Cancel(id: string) returns (found: bool)
      modifies this
      ensures Snapshot() == Cancelled(old(Snapshot()), id)
      ensures found == (id in old(cancels))
    {
      found := id in cancels;
      if found {
        called := called + [cancels[id]];
        cancels := cancels - {id};
      }
    }
  }

  datatype Use = Register(id: string) | Unregister(id: string) | Cancel(id: string)

  function AfterUse(r: Registry, u: Use): Registry {
    match u
    case Register(id) => Registered(r, id)
    case Unregister(id) => Unregistered(r, id)
    case Cancel(id) => Cancelled(r, id)
  }

  function AfterUses(uses: seq<Use>): Registry {
    if uses == [] then Registry(map[], 0, []) else AfterUse(AfterUses(uses[..|uses| - 1]), uses[|uses| - 1])
  }

  ghost predicate CalledOnce(r: Registry) {
    && (forall i, j | 0 <= i < j < |r.called| :: r.called[i] != r.called[j])
    && (forall i | 0 <= i < |r.called| :: r.called[i] < r.handles)
    && (forall id | id in r.cancels :: r.cancels[id] < r.handles && r.cancels[id] !in r.called)
    && (forall a, b | a in r.cancels && b in r.cancels && a != b :: r.cancels[a] != r.cancels[b])
  }

  lemma RegisterKeeps(r: Registry, id: string)
    requires CalledOnce(r)
    ensures CalledOnce(Registered(r, id))
  {
  }

  lemma CancelKeeps(r: Registry, id: string)
    requires CalledOnce(r)
    ensures CalledOnce(Cancelled(r, id)) && CalledOnce(Unregistered(r, id))
  {
  }

  /** Whatever ids are reused and however often they are cancelled, no stream is cancelled twice. */
  lemma {:induction false} NoStreamIsCancelledTwice(uses: seq<Use>)
    ensures CalledOnce(AfterUses(uses))
  {
    if uses != [] {
      var r := AfterUses(uses[..|uses| - 1]);
      NoStreamIsCancelledTwice(uses[..|uses| - 1]);
      match uses[|uses| - 1]
      case Register(id) => RegisterKeeps(r, id);
      case Unregister(id) => CancelKeeps(r, id);
      case Cancel(id) => CancelKeeps(r, id);
    }
  }

  /** From `i` on, no use names `id`. */
  ghost predicate Unnamed(uses: seq<Use>, id: string, i: nat) {
    forall j | i <= j < |uses| :: uses[j].id != id
  }

  /** A use of one id leaves every other as it is, and an unregister or cancel leaves none of its own. */
  lemma OneUse(r: Registry, u: Use, id: string)
    ensures var after := AfterUse(r, u);
            && (u.id != id ==>
                  && (id in after.cancels <==> id in r.cancels)
                  && (id in r.cancels ==> after.cancels[id] == r.cancels[id]))
            && (u.id == id && id != "" && !u.Register? ==> id !in after.cancels)
            && (u == Register(id) && id != "" ==> id in after.cancels && after.cancels[id] == r.handles)
            && (r.handles <= after.handles)
  {
  }

  lemma LastUse(uses: seq<Use>)
    requires uses != []
    ensures AfterUses(uses) == AfterUse(AfterUses(uses[..|uses| - 1]), uses[|uses| - 1])
  {
  }

  /**
   A cancel of `id` reaches the stream last registered under it exactly when
   nothing has named `id` since: no cancel, but no unregister either, not even
   the one an earlier stream of the same id had deferred. It never reaches
   another.
   */
  lemma {:induction false} CancelReachesTheLastExactly(uses: seq<Use>, id: string, i: nat)
    requires i < |uses| && uses[i] == Register(id) && id != ""
    requires forall j | i < j < |uses| :: uses[j] != Register(id)
    ensures id in AfterUses(uses).cancels <==> Unnamed(uses, id, i + 1)
    ensures id in AfterUses(uses).cancels ==> AfterUses(uses).cancels[id] == AfterUses(uses[..i]).handles
  {
    var front, last := uses[..|uses| - 1], uses[|uses| - 1];
    LastUse(uses);
    OneUse(AfterUses(front), last, id);
    if i < |uses| - 1 {
      assert front[..i] == uses[..i];
      CancelReachesTheLastExactly(front, id, i);
      assert Unnamed(uses, id, i + 1) <==> Unnamed(front, id, i + 1) && last.id != id;
    }
  }

  lemma OneMoreUse(uses: seq<Use>, u: Use)
    ensures AfterUses(uses + [u]) == AfterUse(AfterUses(uses), u)
  {
    assert (uses + [u])[..|uses|] == uses;
  }

  lemma CancelCalls(r: Registry, u: Use)
    ensures AfterUse(r, u).called ==
            r.called + if u.Cancel? && u.id in r.cancels then [r.cancels[u.id]] else []
  {
    assert r.called + [] == r.called;
  }

  /** The function a cancel calls is that of the stream last registered under its id, or none. */
  lemma CancelCallsTheLast(uses: seq<Use>, id: string, i: nat)
    requires i < |uses| && uses[i] == Register(id) && id != ""
    requires forall j | i < j < |uses| :: uses[j] != Register(id)
    ensures AfterUses(uses + [Cancel(id)]).called ==
            AfterUses(uses).called + if Unnamed(uses, id, i + 1) then [AfterUses(uses[..i]).handles] else []
  {
    CancelReachesTheLastExactly(uses, id, i);
    OneMoreUse(uses, Cancel(id));
    CancelCalls(AfterUses(uses), Cancel(id));
  }

  lemma {:induction false} NothingUnderNoId(uses: seq<Use>)
    ensures "" !in AfterUses(uses).cancels
  {
    if uses != [] { NothingUnderNoId(uses[..|uses| - 1]); }
  }

  /** A stream without an id is not registered, and naming none cancels none. */
  lemma NoIdIsNoStream(uses: seq<Use>, u: Use)
    requires u.id == ""
    ensures AfterUses(uses + [u]) == AfterUses(uses)
  {
    OneMoreUse(uses, u);
    NothingUnderNoId(uses);
  }

  /** Registering and unregistering call nothing. */
  lemma OnlyCancelCalls(uses: seq<Use>, u: Use)
    requires !u.Cancel?
    ensures AfterUses(uses + [u]).called == AfterUses(uses).called
  {
    OneMoreUse(uses, u);
    CancelCalls(AfterUses(uses), u);
    assert AfterUses(uses).called + [] == AfterUses(uses).called;
  }

  /** So when a stream ends whose id a second stream has taken over, the second cannot be cancelled any more. */
  lemma EndingHidesTheNextStream(before: seq<Use>, id: string)
    requires id != ""
    ensures id !in AfterUses(before + [Register(id), Register(id), Unregister(id)]).cancels
    ensures id in AfterUses(before + [Register(id), Register(id)]).cancels
  {
    var uses := before + [Register(id), Register(id), Unregister(id)];
    CancelReachesTheLastExactly(uses, id, |before| + 1);
    assert uses[|before| + 2].id == id;
    CancelReachesTheLastExactly(before + [Register(id), Register(id)], id, |before| + 1);
  }
}
