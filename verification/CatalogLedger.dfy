/**
 What the ledger of a run can be replayed to: each row's exclusion reason, and
 the latest value the feed published for each of its fields.
 */
module CatalogLedger {
  import opened CatalogRuns
  import opened CatalogTypes
  import opened PublishPolicy
  import opened SyncEngine
  import opened Wrappers

  // ----- the policy ledger replays the exclusion reason -------------------------------

  /** The reason a row is left with that had `was` before these events about it. */
  function Replay(was: Option<Exclusion>, es: seq<Event>): Option<Exclusion> {
    if es == [] then was
    else
      match es[|es| - 1].kind
      case Withheld(_, why) => Some(why)
      case Readded(origin) => if origin == Excluded then None else Replay(was, es[..|es| - 1])
      case _ => Replay(was, es[..|es| - 1])
  }

  predicate MovesExclusion(e: Event) {
    e.kind.Withheld? || e.kind == Readded(Excluded)
  }

  lemma {:induction false} ReplayIgnores(was: Option<Exclusion>, es: seq<Event>, fs: seq<Event>)
    requires forall i | 0 <= i < |fs| :: !MovesExclusion(fs[i])
    ensures Replay(was, es + fs) == Replay(was, es)
  {
    if fs == [] {
      assert es + fs == es;
    } else {
      assert (es + fs)[..|es + fs| - 1] == es + fs[..|fs| - 1];
      ReplayIgnores(was, es, fs[..|fs| - 1]);
    }
  }

  ghost predicate NoneMoves(es: seq<Event>) { forall i | 0 <= i < |es| :: !MovesExclusion(es[i]) }

  lemma NoneMovesAppends(a: seq<Event>, b: seq<Event>)
    requires NoneMoves(a) && NoneMoves(b)
    ensures NoneMoves(a + b)
  {
  }

  lemma ChangesMoveNothing(p: string, id: string, diffs: seq<FieldChange>, at: Time)
    ensures NoneMoves(ChangeEvents(p, id, diffs, at))
  {
  }

  lemma RosterMovesNothing(r: Option<Row>, listed: bool, x: SyncInput, id: string)
    ensures NoneMoves(EventsUnder(r, listed, x, id))
  {
    if listed {
      var diffs := SpecChanges(Live(r), SpecOf(x.specs, id));
      ChangesMoveNothing(x.provider, id, diffs, x.at);
      NoneMovesAppends(ArrivalEvents(x.provider, id, Live(r), x.at), ChangeEvents(x.provider, id, diffs, x.at));
    }
  }

  lemma EngineLeavesExclusions(s: Store, step: Step, p: string, id: string)
    requires !Governs(step, p)
    ensures NoneMoves(NextEvents(s, step, p, id))
  {
    if Reading(s, step, p).Apply? {
      RosterMovesNothing(RowAt(s, p, id), id in Reading(s, step, p).roster, step.x, id);
    }
  }

  lemma ReplayOneMore(was: Option<Exclusion>, told: seq<Event>, e: Event)
    ensures Replay(was, told + [e]) ==
            if e.kind.Withheld? then Some(e.kind.why)
            else if e.kind == Readded(Excluded) then None else Replay(was, told)
  {
    assert (told + [e])[..|told + [e]| - 1] == told;
  }

  lemma PolicyEventsReplay(was: Option<Exclusion>, told: seq<Event>, a: Adapter,
    specs: Specs, id: string, r: Row, at: Time)
    requires Replay(was, told) == r.exclusion
    ensures Replay(was, told + PolicyEvent(a, specs, id, r, at)) == PolicyRow(a, specs, id, r).exclusion
  {
    var es := PolicyEvent(a, specs, id, r, at);
    if es == [] {
      assert told + es == told;
    } else {
      ReplayOneMore(was, told, es[0]);
      assert es == [es[0]];
    }
  }

  function ExclusionOf(row: Option<Row>): Option<Exclusion> { if row.Some? then row.value.exclusion else None }

  lemma ReplayFollowsStep(was: Option<Exclusion>, s: Store, step: Step, p: string, id: string, told: seq<Event>)
    requires ExclusionOf(RowAt(s, p, id)) == Replay(was, told)
    ensures ExclusionOf(NextRow(s, step, p, id)) == Replay(was, told + NextEvents(s, step, p, id))
  {
    var r := RowAt(s, p, id);
    if !Governs(step, p) {
      EngineLeavesExclusions(s, step, p, id);
      ReplayIgnores(was, told, NextEvents(s, step, p, id));
    } else if r.Some? {
      PolicyEventsReplay(was, told, step.g.adapter, step.g.specs, id, r.value, step.at);
    } else {
      assert told + [] == told;
    }
  }

  lemma NextAppends(s: Store, step: Step)
    ensures s.ledger <= Next(s, step).ledger
  {
  }

  lemma {:induction false} LedgerGrows(start: Store, steps: seq<Step>)
    ensures start.ledger <= After(start, steps).ledger
  {
    if steps != [] {
      LedgerGrows(start, steps[..|steps| - 1]);
      NextAppends(After(start, steps[..|steps| - 1]), steps[|steps| - 1]);
    }
  }

  /** What a run added to the ledger about one row. */
  function Told(start: Store, steps: seq<Step>, p: string, id: string): seq<Event> {
    LedgerGrows(start, steps);
    About(After(start, steps).ledger[|start.ledger|..], p, id)
  }

  lemma ToldIsTheRest(start: Store, steps: seq<Step>, p: string, id: string)
    ensures About(After(start, steps).ledger, p, id) == About(start.ledger, p, id) + Told(start, steps, p, id)
  {
    LedgerGrows(start, steps);
    var ledger := After(start, steps).ledger;
    assert ledger == start.ledger + ledger[|start.ledger|..];
    AboutAppends(start.ledger, ledger[|start.ledger|..], p, id);
  }

  /** One more step of a run: what becomes of the row, and what is told about it. */
  lemma OneMoreStep(start: Store, steps: seq<Step>, p: string, id: string)
    requires steps != [] && IsRun(start, steps)
    ensures var front, step := steps[..|steps| - 1], steps[|steps| - 1];
            && RowAt(After(start, steps), p, id) == NextRow(After(start, front), step, p, id)
            && Told(start, steps, p, id) == Told(start, front, p, id) + NextEvents(After(start, front), step, p, id)
  {
    var front, step := steps[..|steps| - 1], steps[|steps| - 1];
    StepOnRow(After(start, front), step, p, id);
    ToldIsTheRest(start, front, p, id);
    ToldIsTheRest(start, steps, p, id);
    SameRest(About(start.ledger, p, id), Told(start, steps, p, id), Told(start, front, p, id),
             NextEvents(After(start, front), step, p, id));
  }

  lemma SameRest(head: seq<Event>, now: seq<Event>, was: seq<Event>, more: seq<Event>)
    requires head + now == (head + was) + more
    ensures now == was + more
  {
    assert now == (head + now)[|head|..] && was + more == ((head + was) + more)[|head|..];
  }

  lemma NothingToldYet(start: Store, p: string, id: string)
    ensures Told(start, [], p, id) == []
  {
  }

  /**
   A row's exclusion reason is what the events told about it since replay to,
   although the engine resets its status in between.
   */
  lemma {:induction false} ExclusionReplaysFromLedger(start: Store, steps: seq<Step>, p: string, id: string)
    requires IsRun(start, steps)
    ensures ExclusionOf(RowAt(After(start, steps), p, id))
            == Replay(ExclusionOf(RowAt(start, p, id)), Told(start, steps, p, id))
  {
    if steps == [] {
      NothingToldYet(start, p, id);
    } else {
      var front, step := steps[..|steps| - 1], steps[|steps| - 1];
      ExclusionReplaysFromLedger(start, front, p, id);
      OneMoreStep(start, steps, p, id);
      ReplayFollowsStep(ExclusionOf(RowAt(start, p, id)), After(start, front), step, p, id, Told(start, front, p, id));
    }
  }

  // ----- the tracked-field ledger is a chain --------------------------------------------

  /** The feed as the last applied sync that listed the row read it. */
  function LastListing(start: Store, steps: seq<Step>, p: string, id: string): Option<Specs> {
    if steps == [] then None
    else
      var front, step := steps[..|steps| - 1], steps[|steps| - 1];
      if Lists(After(start, front), step, p, id) then Some(step.x.specs) else LastListing(start, front, p, id)
  }

  lemma SnapshotReads(spec: Option<Spec>, f: Field)
    ensures Readable(FeedSnapshot(spec))
    ensures Baseline(FeedSnapshot(spec), f) == if spec.Some? then Incoming(f, spec.value) else None
  {
    assert ContextTokens == TRACKED[0] && OutputTokens == TRACKED[1] && CostIn == TRACKED[2] && CostOut == TRACKED[3]
        && Tools == TRACKED[4] && Reasoning == TRACKED[5] && Structured == TRACKED[6] && Attachment == TRACKED[7]
        && InputModalities == TRACKED[8];
  }

  /** The feed baseline a row has after a run: the snapshot of its last listing, or else the one it started with. */
  function BaselineAfter(start: Store, steps: seq<Step>, p: string, id: string): Option<Feed> {
    var listing := LastListing(start, steps, p, id);
    if listing.Some? then Some(FeedSnapshot(SpecOf(listing.value, id))) else FeedOf(RowAt(start, p, id))
  }

  function FeedOf(row: Option<Row>): Option<Feed> { if row.Some? then Some(row.value.feed) else None }

  lemma FeedStep(s: Store, step: Step, p: string, id: string)
    ensures FeedOf(NextRow(s, step, p, id)) ==
            if Lists(s, step, p, id) then Some(FeedSnapshot(SpecOf(step.x.specs, id))) else FeedOf(RowAt(s, p, id))
  {
  }

  lemma BaselineStep(start: Store, steps: seq<Step>, p: string, id: string)
    requires steps != []
    ensures var front, step := steps[..|steps| - 1], steps[|steps| - 1];
            BaselineAfter(start, steps, p, id) ==
            if Lists(After(start, front), step, p, id) then Some(FeedSnapshot(SpecOf(step.x.specs, id)))
            else BaselineAfter(start, front, p, id)
  {
  }

  /** The baseline of every row is the snapshot of its last listing, and nothing else writes it. */
  lemma {:induction false} BaselineIsLastListing(start: Store, steps: seq<Step>, p: string, id: string)
    requires IsRun(start, steps)
    ensures FeedOf(RowAt(After(start, steps), p, id)) == BaselineAfter(start, steps, p, id)
  {
    if steps != [] {
      var front, step := steps[..|steps| - 1], steps[|steps| - 1];
      BaselineIsLastListing(start, front, p, id);
      OneMoreStep(start, steps, p, id);
      FeedStep(After(start, front), step, p, id);
      BaselineStep(start, steps, p, id);
    }
  }

  lemma {:induction false} DifferenceIsExact(feed: Feed, spec: Spec, fields: seq<Field>, c: FieldChange)
    requires Readable(feed)
    ensures c in DifferencesIn(feed, spec, fields) <==>
            c.field in fields && Incoming(c.field, spec) == Some(c.to)
            && c.from == Baseline(feed, c.field) && c.from != Some(c.to)
  {
    if fields != [] {
      DifferenceIsExact(feed, spec, fields[..|fields| - 1], c);
      assert fields == fields[..|fields| - 1] + [fields[|fields| - 1]];
    }
  }

  predicate Reports(es: seq<Event>, f: Field, from: Option<Value>, to: Value) {
    exists e | e in es :: e.kind == Changed(f, from, to)
  }

  /**
   A change of a tracked field is reported exactly when a row already live, with
   a readable baseline, is listed again with a published value other than the
   one the baseline has, and the report cites both. A field the feed stops
   publishing is therefore never reported.
   */
  lemma ChangeIsReportedExactly(start: Store, steps: seq<Step>, step: Step, p: string,
    id: string, f: Field, from: Option<Value>, to: Value)
    requires IsRun(start, steps + [step])
    ensures var s, feed := After(start, steps), BaselineAfter(start, steps, p, id);
            Reports(NextEvents(s, step, p, id), f, from, to) <==>
            && Lists(s, step, p, id) && IsLive(RowAt(s, p, id))
            && Published(step.x.specs, id, f) == Some(to)
            && feed.Some? && Readable(feed.value) && from == Baseline(feed.value, f) && from != Some(to)
  {
    var s := After(start, steps);
    assert (steps + [step])[..|steps + [step]| - 1] == steps;
    BaselineIsLastListing(start, steps, p, id);
    StepReportsExactly(s, step, p, id, f, from, to);
  }

  lemma StepReportsExactly(s: Store, step: Step, p: string, id: string, f: Field, from: Option<Value>, to: Value)
    ensures Reports(NextEvents(s, step, p, id), f, from, to) <==>
            && Lists(s, step, p, id) && IsLive(RowAt(s, p, id))
            && Published(step.x.specs, id, f) == Some(to)
            && Readable(RowAt(s, p, id).value.feed)
            && from == Baseline(RowAt(s, p, id).value.feed, f) && from != Some(to)
  {
    var r := RowAt(s, p, id);
    if !Lists(s, step, p, id) {
      OnlyListingsReport(s, step, p, id, f, from, to);
    } else {
      var spec := SpecOf(step.x.specs, id);
      ReportsAreChanges(p, id, Live(r), spec, step.x.at, f, from, to);
      if IsLive(r) && spec.Some? && Readable(r.value.feed) {
        DifferenceIsExact(r.value.feed, spec.value, TRACKED, FieldChange(f, from, to));
        EveryFieldIsTracked(f);
      }
    }
  }

  /** After a listing the baseline is readable, and has what the feed published then. */
  lemma ListedBaseline(start: Store, steps: seq<Step>, p: string, id: string, f: Field)
    requires LastListing(start, steps, p, id).Some?
    ensures var feed := BaselineAfter(start, steps, p, id);
            feed.Some? && Readable(feed.value)
            && Baseline(feed.value, f) == Published(LastListing(start, steps, p, id).value, id, f)
  {
    SnapshotReads(SpecOf(LastListing(start, steps, p, id).value, id), f);
  }

  /** A step that does not list the row says at most one thing about it, and nothing about its fields. */
  lemma UnlistedSaysNothingOfFields(s: Store, step: Step, p: string, id: string)
    requires !Lists(s, step, p, id)
    ensures var es := NextEvents(s, step, p, id);
            |es| <= 1 && (es != [] ==> es[0].kind != Added && !es[0].kind.Changed?)
  {
  }

  lemma OnlyListingsReport(s: Store, step: Step, p: string, id: string, f: Field, from: Option<Value>, to: Value)
    requires !Lists(s, step, p, id)
    ensures !Reports(NextEvents(s, step, p, id), f, from, to)
  {
    UnlistedSaysNothingOfFields(s, step, p, id);
  }

  lemma ReportsAreChanges(p: string, id: string, before: Option<Row>, spec: Option<Spec>,
    at: Time, f: Field, from: Option<Value>, to: Value)
    ensures Reports(ArrivalEvents(p, id, before, at) + ChangeEvents(p, id, SpecChanges(before, spec), at), f, from, to)
            <==> FieldChange(f, from, to) in SpecChanges(before, spec)
  {
    var arrivals, changes := ArrivalEvents(p, id, before, at), ChangeEvents(p, id, SpecChanges(before, spec), at);
    ChangesAreReported(p, id, SpecChanges(before, spec), at, f, from, to);
    if Reports(changes, f, from, to) {
      var e :| e in changes && e.kind == Changed(f, from, to);
      assert e in arrivals + changes;
    }
    if Reports(arrivals + changes, f, from, to) {
      var e: Event :| e in arrivals + changes && e.kind == Changed(f, from, to);
      assert e !in arrivals;
    }
  }

  lemma EveryFieldIsTracked(f: Field)
    ensures f in TRACKED
  {
    assert TRACKED[0] == ContextTokens && TRACKED[1] == OutputTokens && TRACKED[2] == CostIn && TRACKED[3] == CostOut
        && TRACKED[4] == Tools && TRACKED[5] == Reasoning && TRACKED[6] == Structured && TRACKED[7] == Attachment
        && TRACKED[8] == InputModalities;
  }

  lemma ChangesAreReported(p: string, id: string, diffs: seq<FieldChange>,
    at: Time, f: Field, from: Option<Value>, to: Value)
    ensures Reports(ChangeEvents(p, id, diffs, at), f, from, to) <==> FieldChange(f, from, to) in diffs
  {
    var es := ChangeEvents(p, id, diffs, at);
    if FieldChange(f, from, to) in diffs {
      var i :| 0 <= i < |diffs| && diffs[i] == FieldChange(f, from, to);
      assert es[i] in es;
    }
    if Reports(es, f, from, to) {
      var e :| e in es && e.kind == Changed(f, from, to);
      var i :| 0 <= i < |es| && es[i] == e;
      assert diffs[i] in diffs;
    }
  }

  function LatestNext(latest: Option<Value>, s: Store, step: Step, p: string, id: string, f: Field): Option<Value> {
    if !Lists(s, step, p, id) then latest
    else
      var v := Published(step.x.specs, id, f);
      if v.Some? || !IsLive(RowAt(s, p, id)) then v else latest
  }

  /** What a row's baseline says of a field; nothing if it has none that can be read. */
  function Recalled(row: Option<Row>, f: Field): Option<Value> {
    if row.Some? && Readable(row.value.feed) then Baseline(row.value.feed, f) else None
  }

  /** The last value the feed is known to have published for a field since the row was last added. */
  function LatestPublished(start: Store, steps: seq<Step>, p: string, id: string, f: Field): Option<Value> {
    if steps == [] then Recalled(RowAt(start, p, id), f)
    else
      var front, step := steps[..|steps| - 1], steps[|steps| - 1];
      LatestNext(LatestPublished(start, front, p, id, f), After(start, front), step, p, id, f)
  }

  function AddNext(atAdd: Option<Value>, s: Store, step: Step, p: string, id: string, f: Field): Option<Value> {
    if Lists(s, step, p, id) && !Compared(RowAt(s, p, id)) then Published(step.x.specs, id, f) else atAdd
  }

  /** A live row with a baseline that can be read is compared with it when listed again. */
  predicate Compared(row: Option<Row>) { IsLive(row) && Readable(row.value.feed) }

  /** What the feed published when the row was last added or first given a baseline, or the baseline it started with. */
  function AtLastAdd(start: Store, steps: seq<Step>, p: string, id: string, f: Field): Option<Value> {
    if steps == [] then Recalled(RowAt(start, p, id), f)
    else
      var front, step := steps[..|steps| - 1], steps[|steps| - 1];
      AddNext(AtLastAdd(start, front, p, id, f), After(start, front), step, p, id, f)
  }

  function Answer(es: seq<Event>, f: Field, atAdd: Option<Value>): Option<Value> {
    var change := LastChange(es, f);
    if change.Some? then change else atAdd
  }

  /** The value of the last change of `f` after the last `added`, if there is one. */
  function LastChange(es: seq<Event>, f: Field): Option<Value> {
    if es == [] then None
    else
      match es[|es| - 1].kind
      case Added => None
      case Changed(g, _, to) => if g == f then Some(to) else LastChange(es[..|es| - 1], f)
      case _ => LastChange(es[..|es| - 1], f)
  }

  lemma {:induction false} LastChangeSkips(es: seq<Event>, fs: seq<Event>, f: Field)
    requires forall i | 0 <= i < |fs| :: fs[i].kind != Added && (fs[i].kind.Changed? ==> fs[i].kind.field != f)
    ensures LastChange(es + fs, f) == LastChange(es, f)
  {
    if fs == [] {
      assert es + fs == es;
    } else {
      assert (es + fs)[..|es + fs| - 1] == es + fs[..|fs| - 1];
      LastChangeSkips(es, fs[..|fs| - 1], f);
    }
  }

  lemma ChangeEventsAppend(p: string, id: string, ds: seq<FieldChange>, more: seq<FieldChange>, at: Time)
    ensures ChangeEvents(p, id, ds + more, at) == ChangeEvents(p, id, ds, at) + ChangeEvents(p, id, more, at)
  {
  }

  lemma LastChangeOfOne(es: seq<Event>, p: string, id: string, feed: Feed, spec: Spec, g: Field, at: Time, f: Field)
    requires Readable(feed)
    ensures LastChange(es + ChangeEvents(p, id, Difference(feed, spec, g), at), f) ==
            if f == g && Incoming(f, spec).Some? && Baseline(feed, f) != Incoming(f, spec)
            then Incoming(f, spec) else LastChange(es, f)
  {
    var new_ := ChangeEvents(p, id, Difference(feed, spec, g), at);
    if new_ == [] {
      assert es + new_ == es;
    } else {
      assert (es + new_)[..|es + new_| - 1] == es;
    }
  }

  /** One listing's diffs name each field at most once, so the last one wins. */
  lemma {:induction false} LastChangeOfDiffs(es: seq<Event>, p: string, id: string,
    feed: Feed, spec: Spec, fields: seq<Field>, at: Time, f: Field)
    requires Readable(feed) && Distinct(fields)
    ensures LastChange(es + ChangeEvents(p, id, DifferencesIn(feed, spec, fields), at), f) ==
            if f in fields && Incoming(f, spec).Some? && Baseline(feed, f) != Incoming(f, spec)
            then Incoming(f, spec) else LastChange(es, f)
  {
    if fields == [] {
      assert es + ChangeEvents(p, id, [], at) == es;
    } else {
      var front, last := fields[..|fields| - 1], fields[|fields| - 1];
      assert f in fields <==> f in front || f == last;
      assert last !in front;
      LastChangeOfDiffs(es, p, id, feed, spec, front, at, f);
      var before := es + ChangeEvents(p, id, DifferencesIn(feed, spec, front), at);
      ChangeEventsAppend(p, id, DifferencesIn(feed, spec, front), Difference(feed, spec, last), at);
      assert es + ChangeEvents(p, id, DifferencesIn(feed, spec, fields), at)
          == before + ChangeEvents(p, id, Difference(feed, spec, last), at);
      LastChangeOfOne(before, p, id, feed, spec, last, at, f);
    }
  }

  lemma TrackedFieldsAreDistinct()
    ensures Distinct(TRACKED)
  {
  }

  /** What one listing of a live row adds to the ledger's answer for a field. */
  lemma RelistingAnswers(told: seq<Event>, p: string, id: string, r: Row, spec: Option<Spec>, at: Time, f: Field)
    requires r.status != Retired && Readable(r.feed)
    ensures var es := ArrivalEvents(p, id, Some(r), at) + ChangeEvents(p, id, SpecChanges(Some(r), spec), at);
            LastChange(told + es, f) ==
            if spec.Some? && Incoming(f, spec.value).Some? && Baseline(r.feed, f) != Incoming(f, spec.value)
            then Incoming(f, spec.value) else LastChange(told, f)
  {
    var arrivals, changes := ArrivalEvents(p, id, Some(r), at), ChangeEvents(p, id, SpecChanges(Some(r), spec), at);
    assert told + (arrivals + changes) == (told + arrivals) + changes;
    LastChangeSkips(told, arrivals, f);
    TrackedFieldsAreDistinct();
    EveryFieldIsTracked(f);
    if spec.Some? {
      LastChangeOfDiffs(told + arrivals, p, id, r.feed, spec.value, TRACKED, at, f);
    } else {
      assert (told + arrivals) + changes == told + arrivals;
    }
  }

  lemma OtherStepsAnswerNothing(told: seq<Event>, s: Store, step: Step, p: string, id: string, f: Field)
    requires !Lists(s, step, p, id)
    ensures LastChange(told + NextEvents(s, step, p, id), f) == LastChange(told, f)
  {
    UnlistedSaysNothingOfFields(s, step, p, id);
    LastChangeSkips(told, NextEvents(s, step, p, id), f);
  }

  lemma AddingAnswers(told: seq<Event>, s: Store, step: Step, p: string, id: string, f: Field)
    requires Lists(s, step, p, id) && !IsLive(RowAt(s, p, id))
    ensures LastChange(told + NextEvents(s, step, p, id), f) == None
  {
    var added := [Event(p, id, Added, step.x.at)];
    assert NextEvents(s, step, p, id) == added + [];
    assert (told + added)[|told + added| - 1] == added[0];
  }

  lemma RelistingEvents(s: Store, step: Step, p: string, id: string)
    requires Lists(s, step, p, id) && IsLive(RowAt(s, p, id))
    ensures var r := RowAt(s, p, id);
            NextEvents(s, step, p, id) == ArrivalEvents(p, id, r, step.x.at)
                                          + ChangeEvents(p, id, SpecChanges(r, SpecOf(step.x.specs, id)), step.x.at)
  {
  }

  /** The ledger's answer is what the row's baseline says where that speaks; with none to read, it has none yet. */
  predicate Agrees(feed: Option<Feed>, answer: Option<Value>, f: Field) {
    feed.Some? ==>
      && (!Readable(feed.value) ==> answer == None)
      && (Readable(feed.value) && Baseline(feed.value, f).Some? ==> answer == Baseline(feed.value, f))
  }

  predicate Answering(row: Option<Row>, told: seq<Event>, f: Field, atAdd: Option<Value>) {
    Agrees(FeedOf(row), Answer(told, f, atAdd), f)
  }

  /** A live row listed again that can be compared with its baseline. */
  lemma ComparedAnswer(told: seq<Event>, s: Store, step: Step, p: string, id: string, f: Field, atAdd: Option<Value>)
    requires Lists(s, step, p, id) && Compared(RowAt(s, p, id)) && Answering(RowAt(s, p, id), told, f, atAdd)
    ensures Answer(told + NextEvents(s, step, p, id), f, atAdd) == LatestNext(Answer(told, f, atAdd), s, step, p, id, f)
  {
    var r := RowAt(s, p, id).value;
    RelistingEvents(s, step, p, id);
    RelistingAnswers(told, p, id, r, SpecOf(step.x.specs, id), step.x.at, f);
  }

  /** A live row listed again without a baseline to read: it is given one, and nothing is said of its fields. */
  lemma SeededAnswer(told: seq<Event>, s: Store, step: Step, p: string, id: string, f: Field)
    requires Lists(s, step, p, id) && IsLive(RowAt(s, p, id)) && !Compared(RowAt(s, p, id))
    ensures LastChange(told + NextEvents(s, step, p, id), f) == LastChange(told, f)
  {
    RelistingEvents(s, step, p, id);
    LastChangeSkips(told, NextEvents(s, step, p, id), f);
  }

  lemma AnswerStep(told: seq<Event>, s: Store, step: Step, p: string, id: string, f: Field, atAdd: Option<Value>)
    requires Answering(RowAt(s, p, id), told, f, atAdd)
    ensures LatestNext(Answer(told, f, atAdd), s, step, p, id, f)
            == Answer(told + NextEvents(s, step, p, id), f, AddNext(atAdd, s, step, p, id, f))
  {
    if !Lists(s, step, p, id) {
      OtherStepsAnswerNothing(told, s, step, p, id, f);
    } else if !IsLive(RowAt(s, p, id)) {
      AddingAnswers(told, s, step, p, id, f);
    } else if Compared(RowAt(s, p, id)) {
      ComparedAnswer(told, s, step, p, id, f, atAdd);
    } else {
      SeededAnswer(told, s, step, p, id, f);
    }
  }

  lemma AgreesNext(feed: Option<Feed>, next: Option<Feed>, answer: Option<Value>,
                   s: Store, step: Step, p: string, id: string, f: Field)
    requires Agrees(feed, answer, f)
    requires next == if Lists(s, step, p, id) then Some(FeedSnapshot(SpecOf(step.x.specs, id))) else feed
    ensures Agrees(next, LatestNext(answer, s, step, p, id, f), f)
  {
    if Lists(s, step, p, id) { SnapshotReads(SpecOf(step.x.specs, id), f); }
  }

  lemma AnsweringStep(told: seq<Event>, s: Store, step: Step, p: string, id: string, f: Field, atAdd: Option<Value>)
    requires Answering(RowAt(s, p, id), told, f, atAdd)
    ensures Answering(NextRow(s, step, p, id), told + NextEvents(s, step, p, id), f, AddNext(atAdd, s, step, p, id, f))
  {
    AnswerStep(told, s, step, p, id, f, atAdd);
    FeedStep(s, step, p, id);
    AgreesNext(FeedOf(RowAt(s, p, id)), FeedOf(NextRow(s, step, p, id)), Answer(told, f, atAdd), s, step, p, id, f);
  }

  /**
   The ledger answers for the feed: the latest value the feed published for a
   field is the new value of the last change told since the row was added, or,
   with no such change, the value it had at that add or in the first baseline.
   */
  lemma {:induction false} LedgerAnswersForTheFeed(start: Store, steps: seq<Step>, p: string, id: string, f: Field)
    requires IsRun(start, steps)
    ensures LatestPublished(start, steps, p, id, f)
            == Answer(Told(start, steps, p, id), f, AtLastAdd(start, steps, p, id, f))
    ensures Answering(RowAt(After(start, steps), p, id), Told(start, steps, p, id), f,
                      AtLastAdd(start, steps, p, id, f))
  {
    if steps == [] {
      NothingToldYet(start, p, id);
    } else {
      var front, step := steps[..|steps| - 1], steps[|steps| - 1];
      var told, atAdd := Told(start, front, p, id), AtLastAdd(start, front, p, id, f);
      LedgerAnswersForTheFeed(start, front, p, id, f);
      OneMoreStep(start, steps, p, id);
      AnswerStep(told, After(start, front), step, p, id, f, atAdd);
      AnsweringStep(told, After(start, front), step, p, id, f, atAdd);
    }
  }
}
