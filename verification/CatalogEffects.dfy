/**
 What one sync means, told on the fields of what it was given: which roster is
 refused, held or applied, what becomes of each row and its job, and what the
 ledger and the run's own record say of it.
 */
module CatalogEffects {
  import opened CatalogLedger
  import opened CatalogRuns
  import opened CatalogTypes
  import opened Characters
  import opened ResolutionJobs
  import opened RosterBounds
  import opened SyncEngine
  import opened Wrappers

  // ----- refused, held or applied -----------------------------------------------------

  /** Every entry is a string with something other than white space in it, and there is one. */
  ghost predicate Accepted(fetch: Fetch) {
    && fetch.Parsed? && fetch.entries != []
    && forall e | e in fetch.entries :: e.Name? && exists i :: 0 <= i < |e.id| && !IsSpace(e.id[i])
  }

  function Names(fetch: Fetch): set<string> {
    if fetch.Parsed? then set e | e in fetch.entries && e.Name? :: e.id else {}
  }

  function Unretired(t: Table): set<string> { set id | id in t && t[id].status != Retired }

  /** The live rows a roster leaves out: more than the count, or more than their share. */
  predicate LeavesOutTooMany(t: Table, names: set<string>, o: Options) {
    var live := Unretired(t);
    var gone := live - names;
    gone != {} && (|gone| > o.maxRemovalCount || |gone| as real / |live| as real > o.maxRemovalRatio)
  }

  lemma AcceptedExactly(fetch: Fetch)
    ensures Accepted(fetch) <==> RosterOf(fetch).Some?
    ensures Accepted(fetch) ==>
              Elems(RosterOf(fetch).value) == Names(fetch) && |RosterOf(fetch).value| == |Names(fetch)|
  {
    if fetch.Parsed? {
      forall e | e in fetch.entries && e.Name?
        ensures Acceptable(e) <==> exists i :: 0 <= i < |e.id| && !IsSpace(e.id[i])
      {
        if !Blank(e.id) {
          var c :| c in e.id && !IsSpace(c);
          var i :| 0 <= i < |e.id| && e.id[i] == c;
        }
      }
    }
    if Accepted(fetch) {
      var roster := RosterOf(fetch).value;
      DeduplicatedIsTheSetOfNames(fetch.entries);
      assert Elems(roster) == Names(fetch);
      EnumerationSize(roster, Names(fetch));
    }
  }

  /** `b` is first listed after `a` is. */
  ghost predicate ListedLater(entries: seq<Entry>, a: string, b: string) {
    exists i :: 0 <= i < |entries| && entries[i] == Name(a) && forall j | 0 <= j <= i :: entries[j] != Name(b)
  }

  /** The validated roster is in the order in which its ids were first listed. */
  lemma {:induction false} RosterKeepsOrder(entries: seq<Entry>, i: nat, j: nat)
    requires i < j < |Deduplicated(entries)|
    ensures ListedLater(entries, Deduplicated(entries)[i], Deduplicated(entries)[j])
  {
    var front, roster := entries[..|entries| - 1], Deduplicated(entries);
    DeduplicatedIsTheSetOfNames(front);
    assert forall k | 0 <= k < |front| :: entries[k] == front[k];
    if j < |Deduplicated(front)| {
      RosterKeepsOrder(front, i, j);
      var k :| 0 <= k < |front| && front[k] == Name(roster[i]) && forall m | 0 <= m <= k :: front[m] != Name(roster[j]);
      assert entries[k] == Name(roster[i]);
    } else {
      assert roster[i] in Deduplicated(front) && roster[j] !in Deduplicated(front);
      var k :| 0 <= k < |front| && front[k] == Name(roster[i]);
      assert entries[k] == Name(roster[i]) && forall m | 0 <= m <= k :: entries[m] in front;
    }
  }

  lemma ShareExceeds(gone: nat, live: nat, ratio: real)
    requires live > 0
    ensures gone as real / live as real > ratio <==> gone as real > ratio * live as real
  {
    var share := gone as real / live as real;
    assert share * live as real == gone as real;
    if share > ratio { Scaled(share - ratio, live as real); } else { ScaledDown(ratio - share, live as real); }
  }

  lemma Scaled(a: real, b: real)
    requires a > 0.0 && b > 0.0
    ensures a * b > 0.0
  {
  }

  lemma ScaledDown(a: real, b: real)
    requires a >= 0.0 && b > 0.0
    ensures a * b >= 0.0
  {
  }

  /** What the run's own record says became of it. */
  lemma OutcomeExactly(s: Store, x: SyncInput)
    ensures var t, runs := TableOf(s.tables, x.provider), Synced(s, x).runs;
            && |runs| == |s.runs| + 1 && runs[..|s.runs|] == s.runs
            && var run := runs[|s.runs|];
               && run.provider == x.provider && run.startedAt == x.startedAt && run.finishedAt == x.at
               && (run.outcome == Failed <==> !Accepted(x.fetch))
               && (run.outcome == Quarantined <==>
                     Accepted(x.fetch) && LeavesOutTooMany(t, Names(x.fetch), x.options))
               && run.rosterCount == (if run.outcome == Failed then 0 else |Names(x.fetch)|)
  {
    AcceptedExactly(x.fetch);
    if Accepted(x.fetch) { GateExactly(TableOf(s.tables, x.provider), x); }
    SyncByVerdict(s, x, Judge(TableOf(s.tables, x.provider), x.fetch, x.options));
  }

  lemma GateOfSizes(gone: nat, live: nat, listed: nat, o: Options)
    requires gone <= live
    ensures GateTrips(gone, if live == 0 then listed else live, o) <==>
            gone > 0 && (gone > o.maxRemovalCount || gone as real / live as real > o.maxRemovalRatio)
  {
    if live > 0 { ShareExceeds(gone, live, o.maxRemovalRatio); }
  }

  lemma GateOfSets(t: Table, roster: seq<string>, o: Options)
    ensures var gone, live := |AbsentIds(t, roster)|, |LiveIds(t)|;
            GateTrips(gone, if live == 0 then |roster| else live, o) <==> LeavesOutTooMany(t, Elems(roster), o)
  {
    assert Unretired(t) == LiveIds(t);
    SubsetSize(AbsentIds(t, roster), LiveIds(t));
    GateOfSizes(|AbsentIds(t, roster)|, |LiveIds(t)|, |roster|, o);
    assert AbsentIds(t, roster) == {} <==> |AbsentIds(t, roster)| == 0;
  }

  lemma JudgedByGate(t: Table, x: SyncInput, roster: seq<string>)
    requires RosterOf(x.fetch) == Some(roster)
    ensures var gone, live := |AbsentIds(t, roster)|, |LiveIds(t)|;
            Judge(t, x.fetch, x.options) ==
            if GateTrips(gone, if live == 0 then |roster| else live, x.options) then Hold(roster) else Apply(roster)
  {
  }

  lemma GateExactly(t: Table, x: SyncInput)
    requires Accepted(x.fetch)
    ensures RosterOf(x.fetch).Some?
    ensures var roster := RosterOf(x.fetch).value;
            Judge(t, x.fetch, x.options) ==
            if LeavesOutTooMany(t, Names(x.fetch), x.options) then Hold(roster) else Apply(roster)
  {
    AcceptedExactly(x.fetch);
    JudgedByGate(t, x, RosterOf(x.fetch).value);
    GateOfSets(t, RosterOf(x.fetch).value, x.options);
  }

  predicate IsApplied(s: Store, x: SyncInput) {
    var runs := Synced(s, x).runs;
    runs != [] && runs[|runs| - 1].outcome == Ok
  }

  lemma RecordByVerdict(s: Store, x: SyncInput, verdict: Judgement)
    requires verdict == Judge(TableOf(s.tables, x.provider), x.fetch, x.options)
    ensures IsApplied(s, x) <==> verdict.Apply?
  {
  }

  lemma VerdictIsOnTheRoster(t: Table, x: SyncInput)
    ensures var verdict := Judge(t, x.fetch, x.options);
            verdict.Apply? ==> RosterOf(x.fetch) == Some(verdict.roster)
  {
  }

  lemma AppliedExactly(s: Store, x: SyncInput)
    ensures IsApplied(s, x) <==> Judge(TableOf(s.tables, x.provider), x.fetch, x.options).Apply?
    ensures IsApplied(s, x) ==>
              var roster := Judge(TableOf(s.tables, x.provider), x.fetch, x.options).roster;
              RosterOf(x.fetch) == Some(roster) && Elems(roster) == Names(x.fetch)
  {
    AcceptedExactly(x.fetch);
    VerdictIsOnTheRoster(TableOf(s.tables, x.provider), x);
    RecordByVerdict(s, x, Judge(TableOf(s.tables, x.provider), x.fetch, x.options));
  }

  // ----- what becomes of a row -----------------------------------------------------------

  /** A row some applied roster names: served, with no miss left, and otherwise as it was. */
  predicate IsServed(was: Option<Row>, now: Row, at: Time) {
    && now.status == Active && now.missCount == 0 && now.missingSince == None && now.lastSeen == at
    && now.firstSeen == (if was.Some? then was.value.firstSeen else at)
    && now.exclusion == (if was.Some? then was.value.exclusion else None)
  }

  /** A live row it does not name: one miss more, by which it is retired or missing. */
  predicate IsMissed(was: Row, now: Row, misses: nat, at: Time) {
    && now.missCount == was.missCount + 1
    && now.status == (if was.missCount + 1 < misses then Missing else Retired)
    && now.missingSince == (if now.status == Missing && was.missingSince == None then Some(at) else was.missingSince)
    && now.firstSeen == was.firstSeen && now.lastSeen == was.lastSeen
    && now.exclusion == was.exclusion && now.feed == was.feed
  }

  /** Any row of any provider, before a sync and after it. */
  lemma RowAfterSync(s: Store, x: SyncInput, p: string, id: string)
    requires Admits(s, Sync(x))
    ensures var was, now := RowAt(s, p, id), RowAt(Synced(s, x), p, id);
            if !IsApplied(s, x) || p != x.provider then now == was
            else if id in Names(x.fetch) then now.Some? && IsServed(was, now.value, x.at)
            else if was.Some? && was.value.status != Retired then
              now.Some? && IsMissed(was.value, now.value, x.options.retireAfterMisses, x.at)
            else now == was
  {
    AppliedExactly(s, x);
    SyncOnRow(s, x, p, id);
    NextByVerdict(s, x, Judge(TableOf(s.tables, x.provider), x.fetch, x.options), p, id);
    if IsApplied(s, x) { NamedExactly(s, x, id); }
  }

  lemma NamedExactly(s: Store, x: SyncInput, id: string)
    requires IsApplied(s, x)
    ensures id in Judge(TableOf(s.tables, x.provider), x.fetch, x.options).roster <==> id in Names(x.fetch)
  {
    AppliedExactly(s, x);
    var roster := Judge(TableOf(s.tables, x.provider), x.fetch, x.options).roster;
    assert id in roster <==> id in Elems(roster);
  }

  // ----- what the ledger says of a row -----------------------------------------------------

  function Figure(n: Option<real>): Option<Value> { if n == None then None else Some(Number(n.value)) }

  function Mark(b: Option<bool>): Option<Value> { if b == None then None else Some(Flag(b.value)) }

  function Kinds(names: Option<seq<string>>): Option<Value> {
    if names == None then None else Some(Modalities(names.value))
  }

  /** A field that is published with a value other than the one before. */
  function Moved(f: Field, was: Option<Value>, now: Option<Value>): seq<EventKind> {
    if now != None && now != was then [Changed(f, was, now.value)] else []
  }

  /** All that moved between two specs, in the order it is told. */
  function Movements(was: Spec, now: Spec): seq<EventKind> {
    FigureMovements(was, now) + MarkMovements(was, now) +
    Moved(InputModalities, Kinds(was.inputModalities), Kinds(now.inputModalities))
  }

  function FigureMovements(was: Spec, now: Spec): seq<EventKind> {
    Moved(ContextTokens, Figure(was.contextTokens), Figure(now.contextTokens)) +
    Moved(OutputTokens, Figure(was.outputTokens), Figure(now.outputTokens)) +
    Moved(CostIn, Figure(was.costIn), Figure(now.costIn)) +
    Moved(CostOut, Figure(was.costOut), Figure(now.costOut))
  }

  function MarkMovements(was: Spec, now: Spec): seq<EventKind> {
    Moved(Tools, Mark(was.tools), Mark(now.tools)) +
    Moved(Reasoning, Mark(was.reasoning), Mark(now.reasoning)) +
    Moved(Structured, Mark(was.structured), Mark(now.structured)) +
    Moved(Attachment, Mark(was.attachment), Mark(now.attachment))
  }

  const NO_SPEC := Spec(None, None, None, None, None, None, None, None, None)

  /** What a sync tells about one row: the part of the ledger it added. */
  function ToldBySync(s: Store, x: SyncInput, p: string, id: string): seq<Event> {
    NextAppends(s, Sync(x));
    About(Synced(s, x).ledger[|s.ledger|..], p, id)
  }

  function KindsOf(es: seq<Event>): seq<EventKind> { seq(|es|, i requires 0 <= i < |es| => es[i].kind) }

  lemma ToldIsNext(s: Store, x: SyncInput, p: string, id: string)
    requires Admits(s, Sync(x))
    ensures ToldBySync(s, x, p, id) == NextEvents(s, Sync(x), p, id)
  {
    NextAppends(s, Sync(x));
    var ledger := Synced(s, x).ledger;
    assert ledger == s.ledger + ledger[|s.ledger|..];
    AboutAppends(s.ledger, ledger[|s.ledger|..], p, id);
    SyncOnRow(s, x, p, id);
    Cancels(About(s.ledger, p, id), ToldBySync(s, x, p, id), NextEvents(s, Sync(x), p, id));
  }

  lemma Cancels(head: seq<Event>, a: seq<Event>, b: seq<Event>)
    requires head + a == head + b
    ensures a == b
  {
    assert a == (head + a)[|head|..] && b == (head + b)[|head|..];
  }

  lemma KindsAppend(a: seq<Event>, b: seq<Event>)
    ensures KindsOf(a + b) == KindsOf(a) + KindsOf(b)
  {
  }

  /** The events of a row that an applied roster leaves out: retired, missing, or missing still. */
  function MissedKinds(was: Row, misses: nat): seq<EventKind> {
    if was.missCount + 1 >= misses then [Removed(was.status, was.missCount + 1)]
    else if was.status == Missing then []
    else [WentMissing(was.status, was.missCount + 1)]
  }

  /** And of one it names, apart from its fields: it arrives, or comes back. */
  function ArrivalKinds(was: Option<Row>): seq<EventKind> {
    if was == None || was.value.status == Retired then [Added]
    else if was.value.status == Missing then [Readded(Missing)]
    else []
  }

  lemma ChangeKinds(p: string, id: string, diffs: seq<FieldChange>, at: Time)
    ensures KindsOf(ChangeEvents(p, id, diffs, at)) == AsKinds(diffs)
  {
  }

  function AsKinds(diffs: seq<FieldChange>): seq<EventKind> {
    seq(|diffs|, i requires 0 <= i < |diffs| => Changed(diffs[i].field, diffs[i].from, diffs[i].to))
  }

  /** A sync tells a row of its provider what that row's own listing gives rise to, and no other row anything. */
  lemma ToldByRow(s: Store, x: SyncInput, p: string, id: string)
    requires Admits(s, Sync(x))
    ensures ToldBySync(s, x, p, id) ==
            if !IsApplied(s, x) || p != x.provider then []
            else EventsUnder(RowAt(s, p, id), id in Names(x.fetch), x, id)
  {
    ToldIsNext(s, x, p, id);
    AppliedExactly(s, x);
    NextByVerdict(s, x, Judge(TableOf(s.tables, x.provider), x.fetch, x.options), p, id);
    if IsApplied(s, x) { NamedExactly(s, x, id); }
  }

  ghost predicate AllOf(es: seq<Event>, p: string, id: string, at: Time) {
    forall i | 0 <= i < |es| :: es[i].provider == p && es[i].model == id && es[i].at == at
  }

  lemma AllOfAppends(a: seq<Event>, b: seq<Event>, p: string, id: string, at: Time)
    requires AllOf(a, p, id, at) && AllOf(b, p, id, at)
    ensures AllOf(a + b, p, id, at)
  {
  }

  lemma RowEventsAreItsOwn(r: Option<Row>, listed: bool, x: SyncInput, id: string)
    ensures AllOf(EventsUnder(r, listed, x, id), x.provider, id, x.at)
  {
    if listed {
      AllOfAppends(ArrivalEvents(x.provider, id, Live(r), x.at),
                   ChangeEvents(x.provider, id, SpecChanges(Live(r), SpecOf(x.specs, id)), x.at), x.provider, id, x.at);
    }
  }

  /** Every event of a sync is about a row of its provider, at the time of its transaction. */
  lemma ToldAtOnce(s: Store, x: SyncInput, p: string, id: string)
    requires Admits(s, Sync(x))
    ensures AllOf(ToldBySync(s, x, p, id), x.provider, id, x.at)
    ensures p != x.provider ==> ToldBySync(s, x, p, id) == []
  {
    ToldByRow(s, x, p, id);
    RowEventsAreItsOwn(RowAt(s, p, id), id in Names(x.fetch), x, id);
  }

  lemma UnlistedKinds(r: Option<Row>, x: SyncInput, id: string)
    ensures KindsOf(EventsUnder(r, false, x, id)) ==
            if r != None && r.value.status != Retired then MissedKinds(r.value, x.options.retireAfterMisses) else []
  {
  }

  /** A live row with a snapshot in which every cell is text or null. */
  predicate HasBaseline(r: Option<Row>) {
    && r != None && r.value.status != Retired && r.value.feed.Recorded?
    && forall f | f in r.value.feed.cells :: r.value.feed.cells[f] != Foreign
  }

  lemma ArrivingKinds(r: Option<Row>, x: SyncInput, id: string)
    requires id !in x.specs || !HasBaseline(r)
    ensures KindsOf(EventsUnder(r, true, x, id)) == ArrivalKinds(r)
  {
    assert SpecChanges(Live(r), SpecOf(x.specs, id)) == [];
  }

  lemma RelistedEvents(r: Row, x: SyncInput, id: string)
    requires id in x.specs && r.status != Retired && Readable(r.feed)
    ensures EventsUnder(Some(r), true, x, id) ==
            ArrivalEvents(x.provider, id, Some(r), x.at)
            + ChangeEvents(x.provider, id, DifferencesIn(r.feed, x.specs[id], TRACKED), x.at)
  {
  }

  lemma ArrivalOfLive(p: string, id: string, r: Row, at: Time)
    requires r.status != Retired
    ensures KindsOf(ArrivalEvents(p, id, Some(r), at)) == ArrivalKinds(Some(r))
  {
  }

  lemma RelistedKinds(r: Row, x: SyncInput, id: string, was: Spec)
    requires id in x.specs && r.status != Retired && Spells(r.feed, was)
    ensures KindsOf(EventsUnder(Some(r), true, x, id)) == ArrivalKinds(Some(r)) + Movements(was, x.specs[id])
  {
    var arrivals, diffs := ArrivalEvents(x.provider, id, Some(r), x.at), DifferencesIn(r.feed, x.specs[id], TRACKED);
    RelistedEvents(r, x, id);
    KindsAppend(arrivals, ChangeEvents(x.provider, id, diffs, x.at));
    ArrivalOfLive(x.provider, id, r, x.at);
    ChangeKinds(x.provider, id, diffs, x.at);
    DiffsAreMovements(r.feed, was, x.specs[id]);
  }

  /** What a sync tells about a row it leaves out, or refuses to judge, or does not own. */
  lemma OmissionIsTold(s: Store, x: SyncInput, p: string, id: string)
    requires Admits(s, Sync(x)) && !(IsApplied(s, x) && p == x.provider && id in Names(x.fetch))
    ensures var was := RowAt(s, p, id);
            KindsOf(ToldBySync(s, x, p, id)) ==
            if IsApplied(s, x) && p == x.provider && was != None && was.value.status != Retired
            then MissedKinds(was.value, x.options.retireAfterMisses) else []
  {
    ToldByRow(s, x, p, id);
    UnlistedKinds(RowAt(s, p, id), x, id);
  }

  /** A named row that is compared with nothing: it has no spec, or it arrives, or it has no baseline to read. */
  lemma ArrivalIsTold(s: Store, x: SyncInput, id: string)
    requires Admits(s, Sync(x)) && IsApplied(s, x) && id in Names(x.fetch)
    requires id !in x.specs || !HasBaseline(RowAt(s, x.provider, id))
    ensures KindsOf(ToldBySync(s, x, x.provider, id)) == ArrivalKinds(RowAt(s, x.provider, id))
  {
    ToldByRow(s, x, x.provider, id);
    ArrivingKinds(RowAt(s, x.provider, id), x, id);
  }

  // ----- field by field ---------------------------------------------------------------------

  function ValueOfCell(c: Cell): Option<Value> { if c == Null || c == Foreign then None else Some(c.v) }

  predicate CellIs(feed: Feed, f: Field, v: Option<Value>) {
    feed.Recorded? && f in feed.cells && feed.cells[f] != Foreign && ValueOfCell(feed.cells[f]) == v
  }

  /** A baseline spells out a spec cell by cell. */
  predicate Spells(feed: Feed, s: Spec) {
    && feed.Recorded? && (forall f | f in feed.cells :: feed.cells[f] != Foreign)
    && CellIs(feed, ContextTokens, Figure(s.contextTokens))
    && CellIs(feed, OutputTokens, Figure(s.outputTokens))
    && CellIs(feed, CostIn, Figure(s.costIn))
    && CellIs(feed, CostOut, Figure(s.costOut))
    && CellIs(feed, Tools, Mark(s.tools))
    && CellIs(feed, Reasoning, Mark(s.reasoning))
    && CellIs(feed, Structured, Mark(s.structured))
    && CellIs(feed, Attachment, Mark(s.attachment))
    && CellIs(feed, InputModalities, Kinds(s.inputModalities))
  }

  function SpecOrNone(spec: Option<Spec>): Spec { if spec.Some? then spec.value else NO_SPEC }

  lemma SnapshotCell(spec: Option<Spec>, f: Field)
    ensures var s := SpecOrNone(spec);
            CellIs(FeedSnapshot(spec), f,
                   match f
                   case ContextTokens => Figure(s.contextTokens)
                   case OutputTokens => Figure(s.outputTokens)
                   case CostIn => Figure(s.costIn)
                   case CostOut => Figure(s.costOut)
                   case Tools => Mark(s.tools)
                   case Reasoning => Mark(s.reasoning)
                   case Structured => Mark(s.structured)
                   case Attachment => Mark(s.attachment)
                   case InputModalities => Kinds(s.inputModalities))
  {
    EveryFieldIsTracked(f);
  }

  lemma NoForeignCell(spec: Option<Spec>)
    ensures forall f | f in FeedSnapshot(spec).cells :: FeedSnapshot(spec).cells[f] != Foreign
  {
  }

  lemma SnapshotSpells(spec: Option<Spec>)
    ensures Spells(FeedSnapshot(spec), SpecOrNone(spec))
  {
    NoForeignCell(spec);
    SnapshotCell(spec, ContextTokens);
    SnapshotCell(spec, OutputTokens);
    SnapshotCell(spec, CostIn);
    SnapshotCell(spec, CostOut);
    SnapshotCell(spec, Tools);
    SnapshotCell(spec, Reasoning);
    SnapshotCell(spec, Structured);
    SnapshotCell(spec, Attachment);
    SnapshotCell(spec, InputModalities);
  }

  /** The baseline a named row is left with spells the spec it was named with, or nothing if there was none. */
  lemma BaselineAfterSync(s: Store, x: SyncInput, id: string)
    requires Admits(s, Sync(x)) && IsApplied(s, x) && id in Names(x.fetch)
    ensures RowAt(Synced(s, x), x.provider, id).Some?
    ensures Spells(RowAt(Synced(s, x), x.provider, id).value.feed, if id in x.specs then x.specs[id] else NO_SPEC)
  {
    SyncOnRow(s, x, x.provider, id);
    AppliedExactly(s, x);
    NamedExactly(s, x, id);
    NextByVerdict(s, x, Judge(TableOf(s.tables, x.provider), x.fetch, x.options), x.provider, id);
    SnapshotSpells(SpecOf(x.specs, id));
  }

  lemma FieldMoves(feed: Feed, was: Spec, now: Spec, f: Field)
    requires Readable(feed) && Spells(feed, was)
    ensures AsKinds(Difference(feed, now, f)) ==
            match f
            case ContextTokens => Moved(f, Figure(was.contextTokens), Figure(now.contextTokens))
            case OutputTokens => Moved(f, Figure(was.outputTokens), Figure(now.outputTokens))
            case CostIn => Moved(f, Figure(was.costIn), Figure(now.costIn))
            case CostOut => Moved(f, Figure(was.costOut), Figure(now.costOut))
            case Tools => Moved(f, Mark(was.tools), Mark(now.tools))
            case Reasoning => Moved(f, Mark(was.reasoning), Mark(now.reasoning))
            case Structured => Moved(f, Mark(was.structured), Mark(now.structured))
            case Attachment => Moved(f, Mark(was.attachment), Mark(now.attachment))
            case InputModalities => Moved(f, Kinds(was.inputModalities), Kinds(now.inputModalities))
  {
  }

  lemma AsKindsAppend(a: seq<FieldChange>, b: seq<FieldChange>)
    ensures AsKinds(a + b) == AsKinds(a) + AsKinds(b)
  {
  }

  lemma OneMoreField(feed: Feed, now: Spec, fields: seq<Field>, f: Field)
    requires Readable(feed)
    ensures AsKinds(DifferencesIn(feed, now, fields + [f])) ==
            AsKinds(DifferencesIn(feed, now, fields)) + AsKinds(Difference(feed, now, f))
  {
    assert (fields + [f])[..|fields|] == fields;
    AsKindsAppend(DifferencesIn(feed, now, fields), Difference(feed, now, f));
  }

  lemma TwoMoreFields(feed: Feed, now: Spec, fields: seq<Field>, f: Field, g: Field)
    requires Readable(feed)
    ensures AsKinds(DifferencesIn(feed, now, fields + [f] + [g])) ==
            AsKinds(DifferencesIn(feed, now, fields))
            + AsKinds(Difference(feed, now, f)) + AsKinds(Difference(feed, now, g))
  {
    OneMoreField(feed, now, fields, f);
    OneMoreField(feed, now, fields + [f], g);
  }

  lemma FiguresMove(feed: Feed, was: Spec, now: Spec)
    requires Readable(feed) && Spells(feed, was)
    ensures AsKinds(DifferencesIn(feed, now, TRACKED[..4])) == FigureMovements(was, now)
  {
    TwoMoreFields(feed, now, [], ContextTokens, OutputTokens);
    TwoMoreFields(feed, now, [] + [ContextTokens] + [OutputTokens], CostIn, CostOut);
    assert TRACKED[..4] == [] + [ContextTokens] + [OutputTokens] + [CostIn] + [CostOut];
    FieldMoves(feed, was, now, ContextTokens);
    FieldMoves(feed, was, now, OutputTokens);
    FieldMoves(feed, was, now, CostIn);
    FieldMoves(feed, was, now, CostOut);
  }

  lemma MarksMove(feed: Feed, was: Spec, now: Spec)
    requires Readable(feed) && Spells(feed, was)
    ensures AsKinds(DifferencesIn(feed, now, TRACKED[..8])) ==
            AsKinds(DifferencesIn(feed, now, TRACKED[..4])) + MarkMovements(was, now)
  {
    TwoMoreFields(feed, now, TRACKED[..4], Tools, Reasoning);
    TwoMoreFields(feed, now, TRACKED[..4] + [Tools] + [Reasoning], Structured, Attachment);
    assert TRACKED[..8] == TRACKED[..4] + [Tools] + [Reasoning] + [Structured] + [Attachment];
    FieldMoves(feed, was, now, Tools);
    FieldMoves(feed, was, now, Reasoning);
    FieldMoves(feed, was, now, Structured);
    FieldMoves(feed, was, now, Attachment);
    FourInARow(AsKinds(DifferencesIn(feed, now, TRACKED[..4])),
               Moved(Tools, Mark(was.tools), Mark(now.tools)),
               Moved(Reasoning, Mark(was.reasoning), Mark(now.reasoning)),
               Moved(Structured, Mark(was.structured), Mark(now.structured)),
               Moved(Attachment, Mark(was.attachment), Mark(now.attachment)));
  }

  lemma FourInARow<T>(head: seq<T>, a: seq<T>, b: seq<T>, c: seq<T>, d: seq<T>)
    ensures head + a + b + c + d == head + (a + b + c + d)
  {
  }

  lemma DiffsAreMovements(feed: Feed, was: Spec, now: Spec)
    requires Readable(feed) && Spells(feed, was)
    ensures AsKinds(DifferencesIn(feed, now, TRACKED)) == Movements(was, now)
  {
    FiguresMove(feed, was, now);
    MarksMove(feed, was, now);
    OneMoreField(feed, now, TRACKED[..8], InputModalities);
    assert TRACKED == TRACKED[..8] + [InputModalities];
    FieldMoves(feed, was, now, InputModalities);
  }

  /**
   A live row is named again: it is told to come back if it was missing, and
   then exactly the fields the feed publishes otherwise than its baseline.
   */
  lemma RelistingIsTold(s: Store, x: SyncInput, id: string, was: Spec)
    requires Admits(s, Sync(x)) && IsApplied(s, x) && id in Names(x.fetch) && id in x.specs
    requires RowAt(s, x.provider, id).Some? && RowAt(s, x.provider, id).value.status != Retired
    requires Spells(RowAt(s, x.provider, id).value.feed, was)
    ensures KindsOf(ToldBySync(s, x, x.provider, id)) ==
            ArrivalKinds(RowAt(s, x.provider, id)) + Movements(was, x.specs[id])
  {
    ToldByRow(s, x, x.provider, id);
    RelistedKinds(RowAt(s, x.provider, id).value, x, id, was);
  }

  /** A spec with one field published otherwise; nothing if the value is none of that field's. */
  function Put(s: Spec, f: Field, v: Value): Option<Spec> {
    match (f, v)
    case (ContextTokens, Number(n)) => Some(s.(contextTokens := Some(n)))
    case (OutputTokens, Number(n)) => Some(s.(outputTokens := Some(n)))
    case (CostIn, Number(n)) => Some(s.(costIn := Some(n)))
    case (CostOut, Number(n)) => Some(s.(costOut := Some(n)))
    case (Tools, Flag(b)) => Some(s.(tools := Some(b)))
    case (Reasoning, Flag(b)) => Some(s.(reasoning := Some(b)))
    case (Structured, Flag(b)) => Some(s.(structured := Some(b)))
    case (Attachment, Flag(b)) => Some(s.(attachment := Some(b)))
    case (InputModalities, Modalities(names)) => Some(s.(inputModalities := Some(names)))
    case _ => None
  }

  lemma OneMovement(was: Spec, now: Spec, f: Field, from: Value, to: Value)
    requires from != to && Put(was, f, from) == Some(was) && Put(was, f, to) == Some(now)
    ensures Movements(was, now) == [Changed(f, Some(from), to)]
  {
    match f
    case Tools => OneMark(was, now, f, from, to);
    case Reasoning => OneMark(was, now, f, from, to);
    case Structured => OneMark(was, now, f, from, to);
    case Attachment => OneMark(was, now, f, from, to);
    case InputModalities =>
      assert Moved(InputModalities, Kinds(was.inputModalities), Kinds(now.inputModalities))
          == [Changed(f, Some(from), to)];
    case _ => OneFigure(was, now, f, from, to);
  }

  lemma OneFigure(was: Spec, now: Spec, f: Field, from: Value, to: Value)
    requires from != to && Put(was, f, from) == Some(was) && Put(was, f, to) == Some(now)
    requires f in {ContextTokens, OutputTokens, CostIn, CostOut}
    ensures FigureMovements(was, now) == [Changed(f, Some(from), to)] && MarkMovements(was, now) == []
    ensures was.inputModalities == now.inputModalities
  {
  }

  lemma OneMark(was: Spec, now: Spec, f: Field, from: Value, to: Value)
    requires from != to && Put(was, f, from) == Some(was) && Put(was, f, to) == Some(now)
    requires f in {Tools, Reasoning, Structured, Attachment}
    ensures MarkMovements(was, now) == [Changed(f, Some(from), to)] && FigureMovements(was, now) == []
    ensures was.inputModalities == now.inputModalities
  {
  }

  /**
   One field moves between two syncs in a row that both list the model: exactly
   that field is told, from what it was to what it is.
   */
  lemma OneFieldIsTold(s: Store, x: SyncInput, y: SyncInput, id: string, f: Field, from: Value, to: Value)
    requires Admits(s, Sync(x)) && IsApplied(s, x) && id in Names(x.fetch) && id in x.specs
    requires var s2 := Synced(s, x); Admits(s2, Sync(y)) && IsApplied(s2, y) && id in Names(y.fetch) && id in y.specs
    requires y.provider == x.provider && from != to
    requires Put(x.specs[id], f, from) == Some(x.specs[id]) && Put(x.specs[id], f, to) == Some(y.specs[id])
    ensures KindsOf(ToldBySync(Synced(s, x), y, x.provider, id)) == [Changed(f, Some(from), to)]
  {
    NamedRowIsListed(s, x, id);
    MoveIsTold(Synced(s, x), y, id, x.specs[id], f, from, to);
  }

  /** A named row is active, with a baseline that spells its spec. */
  lemma NamedRowIsListed(s: Store, x: SyncInput, id: string)
    requires Admits(s, Sync(x)) && IsApplied(s, x) && id in Names(x.fetch) && id in x.specs
    ensures var row := RowAt(Synced(s, x), x.provider, id);
            row.Some? && row.value.status == Active && Spells(row.value.feed, x.specs[id])
  {
    RowAfterSync(s, x, x.provider, id);
    BaselineAfterSync(s, x, id);
  }

  lemma MoveIsTold(s: Store, y: SyncInput, id: string, was: Spec, f: Field, from: Value, to: Value)
    requires Admits(s, Sync(y)) && IsApplied(s, y) && id in Names(y.fetch) && id in y.specs
    requires var row := RowAt(s, y.provider, id);
             row.Some? && row.value.status == Active && Spells(row.value.feed, was)
    requires from != to && Put(was, f, from) == Some(was) && Put(was, f, to) == Some(y.specs[id])
    ensures KindsOf(ToldBySync(s, y, y.provider, id)) == [Changed(f, Some(from), to)]
  {
    RelistingIsTold(s, y, id, was);
    OneMovement(was, y.specs[id], f, from, to);
    NoArrival(RowAt(s, y.provider, id).value, Movements(was, y.specs[id]));
  }

  lemma NoArrival(r: Row, movements: seq<EventKind>)
    requires r.status == Active
    ensures ArrivalKinds(Some(r)) + movements == movements
  {
  }

  // ----- jobs ---------------------------------------------------------------------------------

  /** The job of a row that is retired is finished in the same transaction; no other job is touched. */
  lemma JobAfterSync(s: Store, x: SyncInput, k: Key)
    ensures var was, row := Lookup(s.jobs, k), RowAt(s, k.provider, k.model);
            Lookup(Synced(s, x).jobs, k) ==
            if && was != None && IsApplied(s, x) && k.provider == x.provider && k.model !in Names(x.fetch)
               && row != None && row.value.status != Retired && row.value.missCount + 1 >= x.options.retireAfterMisses
            then Some(was.value.(status := Complete, reasons := [], lastAttempt := Some(x.at), nextAttempt := None))
            else was
  {
    var t := TableOf(s.tables, x.provider);
    var verdict := Judge(t, x.fetch, x.options);
    AppliedExactly(s, x);
    SyncByVerdict(s, x, verdict);
    if verdict.Apply? {
      if k.provider == x.provider { NamedExactly(s, x, k.model); }
      JobIsCompleted(s, t, verdict.roster, x, k);
    }
  }

  lemma JobIsCompleted(s: Store, t: Table, roster: seq<string>, x: SyncInput, k: Key)
    requires t == TableOf(s.tables, x.provider)
    ensures var was := Lookup(s.jobs, k);
            Lookup(Applied(s, t, roster, x).jobs, k) ==
            if && was != None && k.provider == x.provider && k.model !in roster
               && k.model in t && t[k.model].status != Retired
               && t[k.model].missCount + 1 >= x.options.retireAfterMisses
            then Some(was.value.(status := Complete, reasons := [], lastAttempt := Some(x.at), nextAttempt := None))
            else was
  {
    var retiring := Retiring(t, AbsentIds(t, roster), x.options);
    assert k in KeysOf(x.provider, retiring) <==> k.provider == x.provider && k.model in retiring;
  }

  // ----- the run's own record -------------------------------------------------------------------

  datatype Tally = Arrivals | Departures | Movings

  predicate Belongs(e: Event, what: Tally) {
    match what
    case Arrivals => e.kind == Added
    case Departures => e.kind.Removed?
    case Movings => e.kind.Changed?
  }

  function HowMany(es: seq<Event>, what: Tally): nat {
    if es == [] then 0 else HowMany(es[..|es| - 1], what) + if Belongs(es[|es| - 1], what) then 1 else 0
  }

  lemma {:induction false} HowManyAppends(a: seq<Event>, b: seq<Event>, what: Tally)
    ensures HowMany(a + b, what) == HowMany(a, what) + HowMany(b, what)
  {
    if b == [] {
      assert a + b == a;
    } else {
      assert (a + b)[..|a + b| - 1] == a + b[..|b| - 1];
      HowManyAppends(a, b[..|b| - 1], what);
    }
  }

  lemma {:induction false} HowManyAlike(es: seq<Event>, what: Tally, all: bool)
    requires forall i | 0 <= i < |es| :: Belongs(es[i], what) == all
    ensures HowMany(es, what) == if all then |es| else 0
  {
    if es != [] { HowManyAlike(es[..|es| - 1], what, all); }
  }

  lemma ModelCounts(p: string, t: Table, id: string, specs: Specs, at: Time)
    ensures var es := ModelEvents(p, t, id, specs, at);
            && HowMany(es, Arrivals) == (if id in LiveIds(t) then 0 else 1)
            && HowMany(es, Departures) == 0
            && HowMany(es, Movings) == |SpecChanges(Before(t, id), SpecOf(specs, id))|
  {
    var before := Before(t, id);
    var arrivals := ArrivalEvents(p, id, before, at);
    var changes := ChangeEvents(p, id, SpecChanges(before, SpecOf(specs, id)), at);
    HowManyAppends(arrivals, changes, Arrivals);
    HowManyAppends(arrivals, changes, Departures);
    HowManyAppends(arrivals, changes, Movings);
    HowManyAlike(changes, Arrivals, false);
    HowManyAlike(changes, Departures, false);
    HowManyAlike(changes, Movings, true);
    HowManyAlike(arrivals, Arrivals, before.None?);
    HowManyAlike(arrivals, Departures, false);
    HowManyAlike(arrivals, Movings, false);
  }

  /** Two lists of events count together. */
  lemma CountsAddUp(a: seq<Event>, b: seq<Event>)
    ensures HowMany(a + b, Arrivals) == HowMany(a, Arrivals) + HowMany(b, Arrivals)
    ensures HowMany(a + b, Departures) == HowMany(a, Departures) + HowMany(b, Departures)
    ensures HowMany(a + b, Movings) == HowMany(a, Movings) + HowMany(b, Movings)
  {
    HowManyAppends(a, b, Arrivals);
    HowManyAppends(a, b, Departures);
    HowManyAppends(a, b, Movings);
  }

  lemma {:induction false} RosterArrivals(p: string, t: Table, roster: seq<string>, specs: Specs, at: Time,
                                         unseen: set<string>)
    requires forall id | id in roster :: id in unseen <==> id !in LiveIds(t)
    ensures HowMany(RosterEvents(p, t, roster, specs, at), Arrivals) == |Filter(roster, unseen)|
  {
    if roster != [] {
      var front, id := roster[..|roster| - 1], roster[|roster| - 1];
      assert id in roster;
      RosterArrivals(p, t, front, specs, at, unseen);
      ModelCounts(p, t, id, specs, at);
      HowManyAppends(RosterEvents(p, t, front, specs, at), ModelEvents(p, t, id, specs, at), Arrivals);
    }
  }

  lemma {:induction false} RosterMovings(p: string, t: Table, roster: seq<string>, specs: Specs, at: Time)
    ensures HowMany(RosterEvents(p, t, roster, specs, at), Departures) == 0
    ensures HowMany(RosterEvents(p, t, roster, specs, at), Movings) == ChangeCount(t, roster, specs)
  {
    if roster != [] {
      var front, id := roster[..|roster| - 1], roster[|roster| - 1];
      RosterMovings(p, t, front, specs, at);
      ModelCounts(p, t, id, specs, at);
      CountsAddUp(RosterEvents(p, t, front, specs, at), ModelEvents(p, t, id, specs, at));
    }
  }

  lemma AbsentCount(p: string, id: string, r: Row, o: Options, at: Time)
    ensures var es := AbsentEvent(p, id, r, o, at);
            && HowMany(es, Arrivals) == 0 && HowMany(es, Movings) == 0
            && HowMany(es, Departures) == if r.missCount + 1 >= o.retireAfterMisses then 1 else 0
  {
    var es := AbsentEvent(p, id, r, o, at);
    HowManyAlike(es, Arrivals, false);
    HowManyAlike(es, Movings, false);
    HowManyAlike(es, Departures, r.missCount + 1 >= o.retireAfterMisses);
  }

  lemma {:induction false} AbsentCounts(p: string, t: Table, absent: seq<string>, o: Options, at: Time,
                                       gone: set<string>)
    requires forall id | id in absent :: id in t && (id in gone <==> t[id].missCount + 1 >= o.retireAfterMisses)
    ensures HowMany(AbsentEvents(p, t, absent, o, at), Arrivals) == 0
    ensures HowMany(AbsentEvents(p, t, absent, o, at), Departures) == |Filter(absent, gone)|
    ensures HowMany(AbsentEvents(p, t, absent, o, at), Movings) == 0
  {
    if absent != [] {
      var front, id := absent[..|absent| - 1], absent[|absent| - 1];
      assert id in absent;
      AbsentCounts(p, t, front, o, at, gone);
      AbsentCount(p, id, t[id], o, at);
      CountsAddUp(AbsentEvents(p, t, front, o, at), AbsentEvent(p, id, t[id], o, at));
    }
  }

  /** An applied run's record counts the events of its own transaction. */
  lemma RecordCountsItsEvents(s: Store, x: SyncInput)
    requires Admits(s, Sync(x)) && IsApplied(s, x)
    ensures |s.ledger| <= |Synced(s, x).ledger| && |Synced(s, x).runs| > 0
    ensures var after := Synced(s, x);
            var told, run := after.ledger[|s.ledger|..], after.runs[|after.runs| - 1];
            && run.added == HowMany(told, Arrivals)
            && run.removed == HowMany(told, Departures)
            && run.changed == HowMany(told, Movings)
  {
    var t := TableOf(s.tables, x.provider);
    AppliedExactly(s, x);
    var roster := Judge(t, x.fetch, x.options).roster;
    SyncByVerdict(s, x, Apply(roster));
    assert Synced(s, x).ledger[|s.ledger|..] == SyncEvents(t, roster, x);
    AddedIsCounted(t, x.fetch);
    EventsAreCounted(t, roster, x);
  }

  lemma RetiringSize(absent: seq<string>, ids: set<string>, retiring: set<string>)
    requires Enumerates(absent, ids) && retiring <= ids
    ensures |Filter(absent, retiring)| == |retiring|
  {
    FilterEnumerates(absent, retiring);
    assert Elems(absent) * retiring == retiring;
    EnumerationSize(Filter(absent, retiring), retiring);
  }

  lemma AbsenceIsCounted(t: Table, roster: seq<string>, x: SyncInput, absent: seq<string>)
    requires absent == Filter(x.scan, AbsentIds(t, roster)) && Enumerates(absent, AbsentIds(t, roster))
    ensures var es := AbsentEvents(x.provider, t, absent, x.options, x.at);
            && HowMany(es, Arrivals) == 0 && HowMany(es, Movings) == 0
            && HowMany(es, Departures) == |Retiring(t, AbsentIds(t, roster), x.options)|
  {
    var retiring := Retiring(t, AbsentIds(t, roster), x.options);
    assert forall id | id in absent :: id in Elems(absent);
    AbsentCounts(x.provider, t, absent, x.options, x.at, retiring);
    RetiringSize(absent, AbsentIds(t, roster), retiring);
  }

  lemma EventsAreCounted(t: Table, roster: seq<string>, x: SyncInput)
    requires Enumerates(x.scan, LiveIds(t))
    ensures HowMany(SyncEvents(t, roster, x), Arrivals) == |Filter(roster, Elems(roster) - LiveIds(t))|
    ensures HowMany(SyncEvents(t, roster, x), Departures) == |Retiring(t, AbsentIds(t, roster), x.options)|
    ensures HowMany(SyncEvents(t, roster, x), Movings) == ChangeCount(t, roster, x.specs)
  {
    var absent := Filter(x.scan, AbsentIds(t, roster));
    AbsentIsCounted(t, roster, x);
    RosterArrivals(x.provider, t, roster, x.specs, x.at, Elems(roster) - LiveIds(t));
    RosterMovings(x.provider, t, roster, x.specs, x.at);
    AbsenceIsCounted(t, roster, x, absent);
    CountsAddUp(RosterEvents(x.provider, t, roster, x.specs, x.at),
                AbsentEvents(x.provider, t, absent, x.options, x.at));
  }
}
