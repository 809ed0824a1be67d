/**
 internal/execution/inflight.go: the goroutine that reads a body for its runner.
 It sends each line and at last a read error, until a send gives way to a
 finished context. Either way it closes the channel, and the runner cannot tell
 the two apart.
 */
module SseScanner {
  import opened SseContract
  import opened SseStreams
  import opened Wrappers

  /** What reading a body yields: its lines, and the error the reads ended with, if any. */
  datatype Body = Body(lines: seq<string>, fault: Option<string>)

  function Reads(b: Body): seq<Event> {
    seq(|b.lines|, i requires 0 <= i < |b.lines| => Line(b.lines[i]))
    + if b.fault.Some? then [ScanError(b.fault.value)] else []
  }

  /** What the channel carries before it is closed; `sends` of the sends come before one gives way. */
  function Sent(b: Body, sends: nat): seq<Event> {
    if sends < |Reads(b)| then Reads(b)[..sends] else Reads(b)
  }

  method ScanBody(b: Body, sends: nat) returns (sent: seq<Event>)
    ensures sent == Sent(b, sends)
    ensures |sent| == sends || (|sent| < sends && |sent| == |b.lines| + if b.fault == None then 0 else 1)
    ensures forall i | 0 <= i < |sent| && i < |b.lines| :: sent[i] == Line(b.lines[i])
    ensures |sent| > |b.lines| ==> b.fault.Some? && sent[|b.lines|] == ScanError(b.fault.value)
  {
    sent := [];
    for i := 0 to |b.lines|
      invariant i <= sends && sent == Reads(b)[..i]
    {
      if i == sends { return; }
      sent := sent + [Line(b.lines[i])];
    }
    if b.fault.Some? && |b.lines| < sends {
      sent := sent + [ScanError(b.fault.value)];
    }
  }

  // ----- a runner on that channel ----------------------------------------------------------

  predicate FromChannel(e: Event) { e.Line? || e.ScanError? || e.Eof? }

  /** What a runner took from the line channel. */
  function Taken(ticks: seq<Tick>): seq<Event> {
    if ticks == [] then []
    else
      var e := ticks[|ticks| - 1].event;
      Taken(ticks[..|ticks| - 1]) + if FromChannel(e) then [e] else []
  }

  /**
   Ticks of a runner whose context is finished, if at all, from the tick
   `finished` on. Before that nothing gives way, so a channel is only closed by
   a scanner that has sent all it read.
   */
  ghost predicate Reading(ticks: seq<Tick>, b: Body, sends: nat, finished: nat) {
    && Taken(ticks) <= Sent(b, sends) + [Eof]
    && forall i | 0 <= i < |ticks| && i < finished ::
         Uncancelled(ticks[i]) && (ticks[i].event.Eof? ==> sends >= |Reads(b)|)
  }

  /** What the lines of a channel carry. */
  function Carried(w: Wire, es: seq<Event>): seq<Chunk> {
    if es == [] then [] else Carried(w, es[..|es| - 1]) + Content(w, Tick(es[|es| - 1], 0))
  }

  lemma CarriedGrows(w: Wire, es: seq<Event>, e: Event)
    ensures Carried(w, es + [e]) == Carried(w, es) + Content(w, Tick(e, 0))
  {
    assert (es + [e])[..|es|] == es;
  }

  lemma {:induction false} TakenCarriesAll(w: Wire, ticks: seq<Tick>)
    ensures Contents(w, ticks) == Carried(w, Taken(ticks))
  {
    if ticks != [] {
      var front, e := ticks[..|ticks| - 1], ticks[|ticks| - 1].event;
      TakenCarriesAll(w, front);
      if FromChannel(e) {
        CarriedGrows(w, Taken(front), e);
      } else {
        assert Taken(front) + [] == Taken(front) && Contents(w, front) + [] == Contents(w, front);
      }
    }
  }

  /** A line after which the stream goes on. */
  predicate Passes(w: Wire, e: Event) {
    && e.Line?
    && (IsData(e.text) ==> var f := w.parse(e.text[|DATA|..]); f.Skip? || (f.Emit? && !f.done))
  }

  ghost predicate AllPass(w: Wire, es: seq<Event>) { forall i | 0 <= i < |es| :: Passes(w, es[i]) }

  lemma OpenTurnPasses(w: Wire, s: Stream, t: Tick)
    requires !s.closed && !Turn(w, s, t).closed && FromChannel(t.event)
    ensures Passes(w, t.event)
  {
  }

  lemma {:induction false} OpenStreamsPassed(w: Wire, ticks: seq<Tick>)
    requires !Ran(w, ticks).closed
    ensures AllPass(w, Taken(ticks))
  {
    if ticks != [] {
      var front, t := ticks[..|ticks| - 1], ticks[|ticks| - 1];
      OpenStreamsPassed(w, front);
      if FromChannel(t.event) { OpenTurnPasses(w, Ran(w, front), t); }
    }
  }

  /** A stream was open until the tick that closed it. */
  lemma {:induction false} OpenBefore(w: Wire, ticks: seq<Tick>)
    ensures var s := Ran(w, ticks);
            && s.used <= |ticks|
            && (!s.closed ==> s.used == |ticks|)
            && (s.closed ==> s.used > 0 && !Ran(w, ticks[..s.used - 1]).closed)
  {
    if ticks != [] {
      var front, t := ticks[..|ticks| - 1], ticks[|ticks| - 1];
      var s := Ran(w, front);
      OpenBefore(w, front);
      if s.closed {
        assert ticks[..s.used - 1] == front[..s.used - 1];
      } else if !Turn(w, s, t).closed {
        OpenTurn(w, s, t);
      } else {
        assert ticks[..|ticks| - 1] == front;
      }
    }
  }

  lemma {:induction false} TakenPrefix(ticks: seq<Tick>, n: nat)
    requires n <= |ticks|
    ensures Taken(ticks[..n]) <= Taken(ticks)
  {
    if n == |ticks| {
      assert ticks[..n] == ticks;
    } else {
      TakenPrefix(ticks[..|ticks| - 1], n);
      assert ticks[..|ticks| - 1][..n] == ticks[..n];
    }
  }

  lemma EndTaken(before: seq<Tick>, last: Tick)
    requires last.event.Eof?
    ensures Taken(before + [last]) == Taken(before) + [Eof]
  {
    assert (before + [last])[..|before|] == before;
  }

  lemma SentHasNoEnd(b: Body, sends: nat)
    ensures forall i | 0 <= i < |Sent(b, sends)| :: !Sent(b, sends)[i].Eof?
  {
  }

  /** The end of the channel comes after all that was sent. */
  lemma EndIsLast(before: seq<Event>, sent: seq<Event>)
    requires before + [Eof] <= sent + [Eof]
    requires forall i | 0 <= i < |sent| :: !sent[i].Eof?
    ensures before == sent
  {
    assert (before + [Eof])[|before|] == (sent + [Eof])[|before|];
    if |before| < |sent| {
      assert false;
    }
    assert before == (before + [Eof])[..|before|] == (sent + [Eof])[..|before|] == sent;
  }

  lemma PrefixOfPrefix(a: seq<Event>, b: seq<Event>, c: seq<Event>)
    requires a <= b && b <= c
    ensures a <= c
  {
  }

  /** An unmarked end: the stream was open, the lines ended, and what it had sent is what it had read. */
  lemma UnmarkedEnd(w: Wire, ticks: seq<Tick>)
    requires !w.eof.Delta? && UnmarkedDone(w, ticks, Ran(w, ticks))
    ensures var s := Ran(w, ticks);
            && 0 < s.used <= |ticks| && ticks[s.used - 1].event.Eof? && w.eof == Done
            && !Ran(w, ticks[..s.used - 1]).closed
            && s.out == Contents(w, ticks[..s.used - 1]) + [Done]
  {
    var s := Ran(w, ticks);
    UnmarkedDoneExactly(w, ticks);
    DoneIsComplete(w, ticks);
    OpenBefore(w, ticks);
    var before, last := ticks[..s.used - 1], ticks[s.used - 1];
    assert ticks[..s.used] == before + [last];
    ContentsGrow(w, before, last);
  }

  lemma TakenUpTo(ticks: seq<Tick>, n: nat)
    requires n < |ticks| && ticks[n].event.Eof?
    ensures Taken(ticks[..n + 1]) == Taken(ticks[..n]) + [Eof]
  {
    assert ticks[..n + 1] == ticks[..n] + [ticks[n]];
    EndTaken(ticks[..n], ticks[n]);
  }

  /** Up to the end of the lines everything sent was taken. */
  lemma TakenToTheEnd(ticks: seq<Tick>, n: nat, b: Body, sends: nat)
    requires n < |ticks| && ticks[n].event.Eof? && Taken(ticks) <= Sent(b, sends) + [Eof]
    ensures Taken(ticks[..n]) == Sent(b, sends)
  {
    TakenPrefix(ticks, n + 1);
    PrefixOfPrefix(Taken(ticks[..n + 1]), Taken(ticks), Sent(b, sends) + [Eof]);
    TakenUpTo(ticks, n);
    SentHasNoEnd(b, sends);
    EndIsLast(Taken(ticks[..n]), Sent(b, sends));
  }

  /**
   A stream that says done unmarked delivered every line its scanner sent, and
   no payload or error among them ended it. Before its context is finished that
   is the whole body.
   */
  lemma UnmarkedDoneDeliversAllSent(w: Wire, ticks: seq<Tick>, b: Body, sends: nat, finished: nat)
    requires !w.eof.Delta? && Reading(ticks, b, sends, finished) && UnmarkedDone(w, ticks, Ran(w, ticks))
    ensures Ran(w, ticks).out == Carried(w, Sent(b, sends)) + [Done] && AllPass(w, Sent(b, sends)) && w.eof == Done
    ensures Ran(w, ticks).used <= finished ==> Sent(b, sends) == Reads(b) && sends >= |Reads(b)|
  {
    var n := Ran(w, ticks).used;
    UnmarkedEnd(w, ticks);
    TakenToTheEnd(ticks, n - 1, b, sends);
    OpenStreamsPassed(w, ticks[..n - 1]);
    TakenCarriesAll(w, ticks[..n - 1]);
  }

  // ----- exactly when -----------------------------------------------------------------------

  /** Some run of the runner on this channel says done though no payload did. */
  ghost predicate CanSayDone(w: Wire, b: Body, sends: nat) {
    exists ticks, finished: nat :: SaysDoneBy(w, ticks, b, sends, finished)
  }

  ghost predicate SaysDoneBy(w: Wire, ticks: seq<Tick>, b: Body, sends: nat, finished: nat) {
    Reading(ticks, b, sends, finished) && UnmarkedDone(w, ticks, Ran(w, ticks))
  }

  /** The same of a run whose context is not finished before it ends. */
  ghost predicate CanSayDoneUncancelled(w: Wire, b: Body, sends: nat) {
    exists ticks :: SaysDoneBy(w, ticks, b, sends, |ticks|)
  }

  /** A runner that takes everything at once. */
  function Ticks(es: seq<Event>): seq<Tick> { seq(|es|, i requires 0 <= i < |es| => Tick(es[i], 2)) }

  lemma {:induction false} TakesAll(w: Wire, es: seq<Event>)
    requires AllPass(w, es)
    ensures Taken(Ticks(es)) == es && !Ran(w, Ticks(es)).closed && Ran(w, Ticks(es)).used == |es|
    ensures NoneFinishes(w, Ticks(es))
  {
    if es != [] {
      var front, e := es[..|es| - 1], es[|es| - 1];
      assert Ticks(es)[..|es| - 1] == Ticks(front);
      TakesAll(w, front);
      assert Passes(w, e) && es == front + [e];
    }
  }

  lemma DoneAfterAll(w: Wire, b: Body, sends: nat)
    requires w.eof == Done && AllPass(w, Sent(b, sends))
    ensures var ticks := Ticks(Sent(b, sends)) + [Tick(Eof, 2)];
            && SaysDoneBy(w, ticks, b, sends, |ticks| - 1)
            && (sends >= |Reads(b)| ==> SaysDoneBy(w, ticks, b, sends, |ticks|))
  {
    SentHasNoEnd(b, sends);
    EndsUnmarked(w, Sent(b, sends));
  }

  lemma EndsUnmarked(w: Wire, es: seq<Event>)
    requires w.eof == Done && AllPass(w, es)
    ensures Taken(Ticks(es) + [Tick(Eof, 2)]) == es + [Eof]
    ensures UnmarkedDone(w, Ticks(es) + [Tick(Eof, 2)], Ran(w, Ticks(es) + [Tick(Eof, 2)]))
  {
    var all := Ticks(es);
    var ticks := all + [Tick(Eof, 2)];
    TakesAll(w, es);
    assert ticks[..|ticks| - 1] == all && ticks[..|ticks|] == ticks;
    EndIsAnswered(w, Ran(w, all), Tick(Eof, 2));
  }

  /**
   A stream can say done though the provider did not, after what was sent of its
   body, exactly when its wire takes the end for an answer's end and nothing sent
   would have ended it.
   */
  lemma CanSayDoneExactly(w: Wire, b: Body, sends: nat)
    requires !w.eof.Delta?
    ensures CanSayDone(w, b, sends) <==> w.eof == Done && AllPass(w, Sent(b, sends))
  {
    if ticks, finished: nat :| SaysDoneBy(w, ticks, b, sends, finished) {
      UnmarkedDoneDeliversAllSent(w, ticks, b, sends, finished);
    }
    if w.eof == Done && AllPass(w, Sent(b, sends)) { DoneAfterAll(w, b, sends); }
  }

  /** With its context alive it can only after the whole body; cut short at any line, only a cancelled stream can. */
  lemma CanSayDoneUncancelledExactly(w: Wire, b: Body, sends: nat)
    requires !w.eof.Delta?
    ensures CanSayDoneUncancelled(w, b, sends) <==>
            w.eof == Done && sends >= |Reads(b)| && AllPass(w, Reads(b))
  {
    if ticks :| SaysDoneBy(w, ticks, b, sends, |ticks|) {
      UnmarkedDoneDeliversAllSent(w, ticks, b, sends, |ticks|);
      OpenBefore(w, ticks);
    }
    if w.eof == Done && sends >= |Reads(b)| && AllPass(w, Reads(b)) {
      assert Sent(b, sends) == Reads(b);
      DoneAfterAll(w, b, sends);
    }
  }
}
