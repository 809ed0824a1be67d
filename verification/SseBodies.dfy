/**
 What the runners make of what the providers say, told on the decoded payloads:
 which events deliver text, which end an answer and how, and which say nothing.
 */
module SseBodies {
  import opened SseContract
  import opened SseStreams
  import opened Wrappers

  // ----- one tick ----------------------------------------------------------------------

  /** The payload of a data line. */
  function Payload(t: Tick): Option<string> {
    if t.event.Line? && |t.event.text| >= 6 && t.event.text[..6] == "data: " then Some(t.event.text[6..]) else None
  }

  lemma PayloadIsData(t: Tick)
    ensures Payload(t).Some? <==> t.event.Line? && IsData(t.event.text)
    ensures Payload(t).Some? ==> Payload(t).value == t.event.text[|DATA|..]
  {
  }

  /** With room for what it sends, a tick ends an open stream with this chunk. */
  predicate EndsWith(w: Wire, s: Stream, t: Tick, c: Chunk) {
    Turn(w, s, t).closed && Turn(w, s, t).out == s.out + [c]
  }

  /** It delivers this much text, and the stream goes on. */
  predicate Delivers(w: Wire, s: Stream, t: Tick, text: string) {
    !Turn(w, s, t).closed && Turn(w, s, t).out == s.out + if text == "" then [] else [Delta(text)]
  }

  /** A line that is no data says nothing; whatever is not a line says the same on every wire. */
  lemma OtherTicks(w: Wire, s: Stream, t: Tick)
    requires !s.closed && t.room > 0
    ensures t.event.Line? && Payload(t) == None ==> Delivers(w, s, t, "")
    ensures t.event == ContextDone ==> Turn(w, s, t).closed && Turn(w, s, t).out == s.out
    ensures t.event == IdleTimer ==> EndsWith(w, s, t, Err(IdleGapTimeout))
    ensures t.event == FirstByteTimer && !s.firstByteSeen ==> EndsWith(w, s, t, Err(FirstByteTimeout))
    ensures t.event == FirstByteTimer && s.firstByteSeen ==> Delivers(w, s, t, "")
    ensures t.event.ScanError? ==> EndsWith(w, s, t, Err(Network(t.event.cause)))
    ensures Turn(w, s, t).firstByteSeen <==> s.firstByteSeen || (t.event.Line? && t.event.text != "")
  {
    PayloadIsData(t);
  }

  /** The first byte has been seen exactly when some line that was read is not empty. */
  lemma {:induction false} FirstByteExactly(w: Wire, ticks: seq<Tick>)
    requires !Ran(w, ticks).closed
    ensures Ran(w, ticks).firstByteSeen <==>
            exists i :: 0 <= i < |ticks| && ticks[i].event.Line? && ticks[i].event.text != ""
  {
    if ticks != [] {
      var front, t := ticks[..|ticks| - 1], ticks[|ticks| - 1];
      FirstByteExactly(w, front);
      assert forall i | 0 <= i < |front| :: front[i] == ticks[i];
      SeenNow(w, Ran(w, front), t);
    }
  }

  lemma SeenNow(w: Wire, s: Stream, t: Tick)
    requires !s.closed && !Turn(w, s, t).closed
    ensures Turn(w, s, t).firstByteSeen <==> s.firstByteSeen || (t.event.Line? && t.event.text != "")
  {
  }

  /** What a tick would send with room for all of it. */
  function Wanted(w: Wire, s: Stream, t: Tick): seq<Chunk>
    requires !s.closed
  {
    OnlyAdds(w, s, t.(room := 2));
    Turn(w, s, t.(room := 2)).out[|s.out|..]
  }

  lemma OnlyAdds(w: Wire, s: Stream, t: Tick)
    ensures s.out <= Turn(w, s, t).out
  {
  }

  /** Only the sends that succeed are seen, and one that does not ends the stream. */
  lemma RoomCuts(w: Wire, s: Stream, t: Tick)
    requires !s.closed
    ensures var all := Wanted(w, s, t);
            && Turn(w, s, t).out == s.out + (if t.room < |all| then all[..t.room] else all)
            && (t.room < |all| ==> Turn(w, s, t).closed)
            && (t.room >= |all| ==> Turn(w, s, t).closed == Turn(w, s, t.(room := 2)).closed)
  {
  }

  /** A payload its wire fails on. */
  predicate Fails(w: Wire, t: Tick) { t.event.Line? && IsData(t.event.text) && w.parse(t.event.text[|DATA|..]).Bad? }

  ghost predicate NoneFails(w: Wire, ticks: seq<Tick>) { forall i | 0 <= i < |ticks| :: !Fails(w, ticks[i]) }

  lemma FailingEnds(w: Wire, s: Stream, t: Tick)
    requires !s.closed && Orderly(s) && Fails(w, t)
    ensures Turn(w, s, t).closed && !SaysDone(Turn(w, s, t))
  {
  }

  lemma TurnUses(w: Wire, s: Stream, t: Tick)
    requires !s.closed
    ensures Turn(w, s, t).used == s.used + 1
  {
  }

  /** A stream that is open, or says done, read nothing that failed. */
  ghost predicate ReadWell(w: Wire, ticks: seq<Tick>, s: Stream) {
    && s.used <= |ticks|
    && (!s.closed ==> s.used == |ticks|)
    && (!s.closed || SaysDone(s) ==> NoneFails(w, ticks[..s.used]))
  }

  lemma TurnReadsWell(w: Wire, ticks: seq<Tick>, s: Stream, t: Tick)
    requires Orderly(s) && ReadWell(w, ticks, s)
    ensures ReadWell(w, ticks + [t], Turn(w, s, t))
  {
    if s.closed {
      assert (ticks + [t])[..s.used] == ticks[..s.used];
    } else {
      TurnUses(w, s, t);
      assert (ticks + [t])[..|ticks| + 1] == ticks + [t] && ticks[..|ticks|] == ticks;
      if Fails(w, t) { FailingEnds(w, s, t); }
    }
  }

  lemma {:induction false} StreamsReadWell(w: Wire, ticks: seq<Tick>)
    requires !w.eof.Delta?
    ensures ReadWell(w, ticks, Ran(w, ticks))
  {
    if ticks != [] {
      var front, t := ticks[..|ticks| - 1], ticks[|ticks| - 1];
      EveryStreamEndsOnce(w, front);
      StreamsReadWell(w, front);
      TurnReadsWell(w, front, Ran(w, front), t);
      assert front + [t] == ticks;
    }
  }

  // ----- Anthropic ------------------------------------------------------------------------

  predicate IsError(b: AnthropicBody) { b.StreamEvent? && b.kind == "error" }

  predicate IsStop(b: AnthropicBody) { b.StreamEvent? && b.kind == "message_stop" }

  predicate IsText(b: AnthropicBody) {
    b.StreamEvent? && b.kind == "content_block_delta" && b.deltaKind == "text_delta"
  }

  /** The provider's own word for its error, or a general one. */
  function ErrorKind(b: AnthropicBody): string
    requires IsError(b)
  {
    if b.error == None || b.error == Some("") then "provider stream error" else b.error.value
  }

  /** Every payload on the Anthropic wire, by what it decodes to. */
  lemma AnthropicPayload(json: string -> AnthropicBody, s: Stream, t: Tick)
    requires !s.closed && t.room > 0 && Payload(t).Some?
    ensures var w, b := AnthropicWire(json), json(Payload(t).value);
            && (b.AnthropicMalformed? ==> EndsWith(w, s, t, Err(Decode("anthropic", b.cause))))
            && (IsError(b) ==> EndsWith(w, s, t, Err(Provider(ErrorKind(b)))))
            && (IsStop(b) ==> EndsWith(w, s, t, Done))
            && (IsText(b) ==> Delivers(w, s, t, b.text))
            && (!b.AnthropicMalformed? && !IsError(b) && !IsStop(b) && !IsText(b) ==> Delivers(w, s, t, ""))
  {
    PayloadIsData(t);
  }

  /** The text deltas among what was read, in order. */
  function AnthropicTexts(json: string -> AnthropicBody, ticks: seq<Tick>): seq<Chunk> {
    if ticks == [] then []
    else
      var p := Payload(ticks[|ticks| - 1]);
      AnthropicTexts(json, ticks[..|ticks| - 1]) +
      if p.Some? && IsText(json(p.value)) && json(p.value).text != "" then [Delta(json(p.value).text)] else []
  }

  /** No payload that was read failed. */
  ghost predicate AnthropicClean(json: string -> AnthropicBody, ticks: seq<Tick>) {
    forall i | 0 <= i < |ticks| && Payload(ticks[i]).Some? ::
      var b := json(Payload(ticks[i]).value); !b.AnthropicMalformed? && !IsError(b)
  }

  lemma AnthropicContent(json: string -> AnthropicBody, t: Tick)
    ensures var p := Payload(t);
            Content(AnthropicWire(json), t) ==
            if p.Some? && IsText(json(p.value)) && json(p.value).text != "" then [Delta(json(p.value).text)] else []
  {
    PayloadIsData(t);
  }

  lemma {:induction false} AnthropicContents(json: string -> AnthropicBody, ticks: seq<Tick>)
    ensures Contents(AnthropicWire(json), ticks) == AnthropicTexts(json, ticks)
  {
    if ticks != [] {
      AnthropicContents(json, ticks[..|ticks| - 1]);
      AnthropicContent(json, ticks[|ticks| - 1]);
    }
  }

  lemma AnthropicFails(json: string -> AnthropicBody, t: Tick)
    ensures Fails(AnthropicWire(json), t) <==>
            Payload(t).Some? && (json(Payload(t).value).AnthropicMalformed? || IsError(json(Payload(t).value)))
  {
    PayloadIsData(t);
  }

  lemma AnthropicUnfailed(json: string -> AnthropicBody, ticks: seq<Tick>)
    requires NoneFails(AnthropicWire(json), ticks)
    ensures AnthropicClean(json, ticks)
  {
    forall i | 0 <= i < |ticks| && Payload(ticks[i]).Some?
      ensures var b := json(Payload(ticks[i]).value); !b.AnthropicMalformed? && !IsError(b)
    {
      AnthropicFails(json, ticks[i]);
    }
  }

  /**
   On the Anthropic wire a stream that says done delivered exactly the texts of
   the text deltas it read, in order, and read neither an error event nor a
   malformed payload; so has one that is still open, as far as it got.
   */
  lemma AnthropicTellsAll(json: string -> AnthropicBody, ticks: seq<Tick>)
    ensures var s := Ran(AnthropicWire(json), ticks);
            && s.used <= |ticks|
            && (!s.closed ==> s.out == AnthropicTexts(json, ticks) && AnthropicClean(json, ticks))
            && (SaysDone(s) ==>
                  s.out == AnthropicTexts(json, ticks[..s.used]) + [Done] && AnthropicClean(json, ticks[..s.used]))
  {
    DoneIsComplete(AnthropicWire(json), ticks);
    if !Ran(AnthropicWire(json), ticks).closed { AnthropicOpen(json, ticks); }
    if SaysDone(Ran(AnthropicWire(json), ticks)) { AnthropicDone(json, ticks); }
  }

  lemma AnthropicOpen(json: string -> AnthropicBody, ticks: seq<Tick>)
    requires !Ran(AnthropicWire(json), ticks).closed
    ensures Ran(AnthropicWire(json), ticks).out == AnthropicTexts(json, ticks) && AnthropicClean(json, ticks)
  {
    DoneIsComplete(AnthropicWire(json), ticks);
    AnthropicContents(json, ticks);
    StreamsReadWell(AnthropicWire(json), ticks);
    assert ticks[..|ticks|] == ticks;
    AnthropicUnfailed(json, ticks);
  }

  ghost predicate AnthropicToldAll(json: string -> AnthropicBody, ticks: seq<Tick>, s: Stream) {
    && s.used <= |ticks|
    && s.out == AnthropicTexts(json, ticks[..s.used]) + [Done] && AnthropicClean(json, ticks[..s.used])
  }

  lemma AnthropicDone(json: string -> AnthropicBody, ticks: seq<Tick>)
    requires SaysDone(Ran(AnthropicWire(json), ticks))
    ensures AnthropicToldAll(json, ticks, Ran(AnthropicWire(json), ticks))
  {
    DoneIsComplete(AnthropicWire(json), ticks);
    StreamsReadWell(AnthropicWire(json), ticks);
    AnthropicContents(json, ticks[..Ran(AnthropicWire(json), ticks).used]);
    AnthropicUnfailed(json, ticks[..Ran(AnthropicWire(json), ticks).used]);
  }

  // ----- Gemini ---------------------------------------------------------------------------

  /** The text of a candidate's parts, from the front. */
  function Joined(parts: seq<Option<string>>): string {
    if parts == [] then "" else (if parts[0] == None then "" else parts[0].value) + Joined(parts[1..])
  }

  lemma {:induction false} JoinedAppends(parts: seq<Option<string>>, p: Option<string>)
    ensures Joined(parts + [p]) == Joined(parts) + if p == None then "" else p.value
  {
    if parts == [] {
      assert [] + [p] == [p] && [p][1..] == [];
    } else {
      assert (parts + [p])[1..] == parts[1..] + [p];
      JoinedAppends(parts[1..], p);
    }
  }

  lemma {:induction false} TextsAreJoined(parts: seq<Option<string>>)
    ensures Texts(parts) == Joined(parts)
  {
    if parts != [] {
      var n := |parts| - 1;
      TextsAreJoined(parts[..n]);
      JoinedAppends(parts[..n], parts[n]);
      assert parts == parts[..n] + [parts[n]];
    }
  }

  /** The first candidate alone counts. */
  function GeminiText(b: GeminiBody): string {
    if b.GeminiMalformed? || b.all == [] then "" else Joined(b.all[0].parts)
  }

  /** It says that it finished, for whatever reason. */
  predicate IsFinished(b: GeminiBody) {
    b.Candidates? && b.all != [] && b.all[0].finish !in {"", "FINISH_REASON_UNSPECIFIED"}
  }

  /** Every payload on the Gemini wire, by what it decodes to. */
  lemma GeminiPayload(json: string -> GeminiBody, s: Stream, t: Tick)
    requires !s.closed && t.room > 1 && Payload(t).Some?
    ensures var w, b := GeminiWire(json), json(Payload(t).value);
            && (b.GeminiMalformed? ==> EndsWith(w, s, t, Err(Decode("gemini", b.cause))))
            && (IsFinished(b) && GeminiText(b) == "" ==> EndsWith(w, s, t, Done))
            && (IsFinished(b) && GeminiText(b) != "" ==>
                  Turn(w, s, t).closed && Turn(w, s, t).out == s.out + [Delta(GeminiText(b)), Done])
            && (b.Candidates? && !IsFinished(b) ==> Delivers(w, s, t, GeminiText(b)))
  {
    PayloadIsData(t);
    var b := json(Payload(t).value);
    if b.Candidates? && b.all != [] { TextsAreJoined(b.all[0].parts); }
  }

  /** The texts of what was read, in order. */
  function GeminiTexts(json: string -> GeminiBody, ticks: seq<Tick>): seq<Chunk> {
    if ticks == [] then []
    else
      var p := Payload(ticks[|ticks| - 1]);
      GeminiTexts(json, ticks[..|ticks| - 1]) +
      if p.Some? && GeminiText(json(p.value)) != "" then [Delta(GeminiText(json(p.value)))] else []
  }

  ghost predicate GeminiClean(json: string -> GeminiBody, ticks: seq<Tick>) {
    forall i | 0 <= i < |ticks| && Payload(ticks[i]).Some? :: json(Payload(ticks[i]).value).Candidates?
  }

  lemma GeminiContent(json: string -> GeminiBody, t: Tick)
    ensures var p := Payload(t);
            Content(GeminiWire(json), t) ==
            if p.Some? && GeminiText(json(p.value)) != "" then [Delta(GeminiText(json(p.value)))] else []
  {
    PayloadIsData(t);
    if Payload(t).Some? {
      var b := json(Payload(t).value);
      if b.Candidates? && b.all != [] { TextsAreJoined(b.all[0].parts); }
    }
  }

  lemma {:induction false} GeminiContents(json: string -> GeminiBody, ticks: seq<Tick>)
    ensures Contents(GeminiWire(json), ticks) == GeminiTexts(json, ticks)
  {
    if ticks != [] {
      GeminiContents(json, ticks[..|ticks| - 1]);
      GeminiContent(json, ticks[|ticks| - 1]);
    }
  }

  lemma GeminiUnfailed(json: string -> GeminiBody, ticks: seq<Tick>)
    requires NoneFails(GeminiWire(json), ticks)
    ensures GeminiClean(json, ticks)
  {
    forall i | 0 <= i < |ticks| && Payload(ticks[i]).Some? ensures json(Payload(ticks[i]).value).Candidates? {
      PayloadIsData(ticks[i]);
      assert !Fails(GeminiWire(json), ticks[i]);
    }
  }

  /** The same on the Gemini wire: a stream that says done, or is open, read nothing malformed and lost no text. */
  lemma GeminiTellsAll(json: string -> GeminiBody, ticks: seq<Tick>)
    ensures var s := Ran(GeminiWire(json), ticks);
            && s.used <= |ticks|
            && (!s.closed ==> s.out == GeminiTexts(json, ticks) && GeminiClean(json, ticks))
            && (SaysDone(s) ==>
                  s.out == GeminiTexts(json, ticks[..s.used]) + [Done] && GeminiClean(json, ticks[..s.used]))
  {
    DoneIsComplete(GeminiWire(json), ticks);
    if !Ran(GeminiWire(json), ticks).closed { GeminiOpen(json, ticks); }
    if SaysDone(Ran(GeminiWire(json), ticks)) { GeminiDone(json, ticks); }
  }

  lemma GeminiOpen(json: string -> GeminiBody, ticks: seq<Tick>)
    requires !Ran(GeminiWire(json), ticks).closed
    ensures Ran(GeminiWire(json), ticks).out == GeminiTexts(json, ticks) && GeminiClean(json, ticks)
  {
    DoneIsComplete(GeminiWire(json), ticks);
    GeminiContents(json, ticks);
    StreamsReadWell(GeminiWire(json), ticks);
    assert ticks[..|ticks|] == ticks;
    GeminiUnfailed(json, ticks);
  }

  ghost predicate GeminiToldAll(json: string -> GeminiBody, ticks: seq<Tick>, s: Stream) {
    && s.used <= |ticks|
    && s.out == GeminiTexts(json, ticks[..s.used]) + [Done] && GeminiClean(json, ticks[..s.used])
  }

  lemma GeminiDone(json: string -> GeminiBody, ticks: seq<Tick>)
    requires SaysDone(Ran(GeminiWire(json), ticks))
    ensures GeminiToldAll(json, ticks, Ran(GeminiWire(json), ticks))
  {
    DoneIsComplete(GeminiWire(json), ticks);
    StreamsReadWell(GeminiWire(json), ticks);
    GeminiContents(json, ticks[..Ran(GeminiWire(json), ticks).used]);
    GeminiUnfailed(json, ticks[..Ran(GeminiWire(json), ticks).used]);
  }

  // ----- OpenAI ---------------------------------------------------------------------------

  /** Every payload on an OpenAI wire: the marker, or what it decodes to, of which the first choice counts. */
  lemma OpenAIPayload(codec: string, json: string -> OpenAIBody, s: Stream, t: Tick)
    requires !s.closed && t.room > 0 && Payload(t).Some?
    ensures var w, b := OpenAIWire(codec, json), json(Payload(t).value);
            if Payload(t).value == "[DONE]" then EndsWith(w, s, t, Done)
            else if b.OpenAIMalformed? then EndsWith(w, s, t, Err(Decode(codec, b.cause)))
            else Delivers(w, s, t, if b.contents == [] then "" else b.contents[0])
  {
    PayloadIsData(t);
  }

  /** The three wires differ in what the end of the lines is taken for. */
  lemma EndsOfLines(s: Stream, t: Tick, codec: string,
                    o: string -> OpenAIBody, g: string -> GeminiBody, a: string -> AnthropicBody)
    requires !s.closed && t.room > 0 && t.event == Eof
    ensures EndsWith(OpenAIWire(codec, o), s, t, Err(Truncated))
    ensures EndsWith(GeminiWire(g), s, t, Done)
    ensures EndsWith(AnthropicWire(a), s, t, Done)
  {
  }

  // ----- the consumer ------------------------------------------------------------------------

  /** The rate, over the seconds between the first and the last content chunk, counts all chunks but one. */
  lemma RateExactly(times: seq<int>)
    ensures |times| >= 2 && times[|times| - 1] > times[0] ==>
              Rate(times) * (times[|times| - 1] - times[0]) as real == 1000.0 * (|times| - 1) as real
    ensures |times| < 2 || times[|times| - 1] <= times[0] ==> Rate(times) == 0.0
  {
    if |times| >= 2 && times[|times| - 1] > times[0] {
      Divided((|times| - 1) as real, (times[|times| - 1] - times[0]) as real);
    }
  }

  lemma Divided(n: real, ms: real)
    requires ms > 0.0
    ensures n / (ms / 1000.0) * ms == 1000.0 * n
  {
    var seconds := ms / 1000.0;
    assert n / seconds * seconds == n;
  }

  /** Content is timed by the arrival of every non-empty delta. */
  lemma {:induction false} ContentIsTimed(arrivals: seq<Arrival>, a: Arrival)
    ensures ContentTimes(arrivals + [a]) ==
            ContentTimes(arrivals) + match a.chunk case Delta(text) => (if text == "" then [] else [a.at]) case _ => []
    ensures ContentTimes([]) == []
  {
    assert (arrivals + [a])[..|arrivals|] == arrivals;
  }
}
