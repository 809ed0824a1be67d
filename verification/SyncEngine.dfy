/**
 catalog/sync/engine.ts: one provider's sync. A fetched roster is validated,
 gated on how much it would remove, and then applied to the provider's rows
 together with the events and the run record, or not at all.
 */
module SyncEngine {
  import opened CatalogTypes
  import opened Characters
  import opened ResolutionJobs
  import opened Wrappers

  // ----- what a run is given ----------------------------------------------

  /** Per-model facts from the spec feed; an absent field is one not published. */
  datatype Spec = Spec(
    contextTokens: Option<real>,
    outputTokens: Option<real>,
    costIn: Option<real>,
    costOut: Option<real>,
    tools: Option<bool>,
    reasoning: Option<bool>,
    structured: Option<bool>,
    attachment: Option<bool>,
    inputModalities: Option<seq<string>>)

  type Specs = map<string, Spec>

  /** One entry of a parsed roster: a string, or anything else. */
  datatype Entry = Name(id: string) | NotAString

  datatype Fetch = Unreadable | Parsed(entries: seq<Entry>)

  datatype Options = Options(maxRemovalRatio: real, maxRemovalCount: nat, retireAfterMisses: nat)

  const DEFAULT_OPTIONS := Options(0.3, 5, 1)

  /** `scan` is the order in which the database returned the provider's live rows. */
  datatype SyncInput = SyncInput(
    provider: string,
    fetch: Fetch,
    specs: Specs,
    scan: seq<string>,
    options: Options,
    startedAt: Time,
    at: Time)

  datatype RunResult = RunResult(outcome: Outcome, rosterCount: nat,
    added: seq<string>, removed: seq<string>, changed: nat)

  /** The catalog's durable state. */
  datatype Store = Store(tables: map<string, Table>, ledger: seq<Event>, runs: seq<Run>, jobs: Jobs)

  function SpecOf(specs: Specs, id: string): Option<Spec> {
    if id in specs then Some(specs[id]) else None
  }

  // ----- layer 3: the roster contract --------------------------------------

  predicate Blank(s: string) { forall c | c in s :: IsSpace(c) }

  predicate Acceptable(e: Entry) { e.Name? && !Blank(e.id) }

  predicate AllAcceptable(entries: seq<Entry>) { forall e | e in entries :: Acceptable(e) }

  /** First occurrences, in order. */
  function Deduplicated(entries: seq<Entry>): seq<string> {
    if entries == [] then []
    else
      var front := Deduplicated(entries[..|entries| - 1]);
      var e := entries[|entries| - 1];
      if e.Name? && e.id !in front then front + [e.id] else front
  }

  /** The roster of an accepted response; nothing when any entry is bad or there is none. */
  function RosterOf(fetch: Fetch): Option<seq<string>> {
    if fetch.Parsed? && fetch.entries != [] && AllAcceptable(fetch.entries)
    then Some(Deduplicated(fetch.entries))
    else None
  }

  method ValidateRoster(fetch: Fetch) returns (roster: Option<seq<string>>)
    ensures roster == RosterOf(fetch)
  {
    if fetch.Unreadable? { return None; }
    var out := [];
    var i := 0;
    while i < |fetch.entries|
      invariant 0 <= i <= |fetch.entries|
      invariant AllAcceptable(fetch.entries[..i])
      invariant out == Deduplicated(fetch.entries[..i])
      invariant i > 0 ==> out != []
    {
      var e := fetch.entries[i];
      OneMoreEntry(fetch.entries, i);
      if !Acceptable(e) { return None; }
      if e.id !in out { out := out + [e.id]; }
      i := i + 1;
    }
    assert fetch.entries[..i] == fetch.entries;
    return if out == [] then None else Some(out);
  }

  lemma OneMoreEntry(entries: seq<Entry>, i: nat)
    requires i < |entries|
    ensures AllAcceptable(entries) ==> Acceptable(entries[i])
    ensures AllAcceptable(entries[..i]) && Acceptable(entries[i]) ==> AllAcceptable(entries[..i + 1])
    ensures var front := Deduplicated(entries[..i]);
            entries[i].Name? ==>
              Deduplicated(entries[..i + 1]) == if entries[i].id !in front then front + [entries[i].id] else front
  {
    assert entries[..i + 1] == entries[..i] + [entries[i]];
    assert entries[..i + 1][..i] == entries[..i];
  }

  lemma {:induction false} DeduplicatedIsTheSetOfNames(entries: seq<Entry>)
    ensures Distinct(Deduplicated(entries))
    ensures forall id :: id in Deduplicated(entries) <==> Name(id) in entries
  {
    if entries != [] {
      var front, e := entries[..|entries| - 1], entries[|entries| - 1];
      DeduplicatedIsTheSetOfNames(front);
      assert entries == front + [e];
    }
  }

  // ----- tracked fields: snapshot and diff ---------------------------------

  const TRACKED: seq<Field> :=
    [ContextTokens, OutputTokens, CostIn, CostOut, Tools, Reasoning, Structured, Attachment, InputModalities]

  function Amount(n: Option<real>): Option<Value> { if n.Some? then Some(Number(n.value)) else None }

  function Verdict(b: Option<bool>): Option<Value> { if b.Some? then Some(Flag(b.value)) else None }

  function Incoming(f: Field, s: Spec): Option<Value> {
    match f
    case ContextTokens => Amount(s.contextTokens)
    case OutputTokens => Amount(s.outputTokens)
    case CostIn => Amount(s.costIn)
    case CostOut => Amount(s.costOut)
    case Tools => Verdict(s.tools)
    case Reasoning => Verdict(s.reasoning)
    case Structured => Verdict(s.structured)
    case Attachment => Verdict(s.attachment)
    case InputModalities => if s.inputModalities.Some? then Some(Modalities(s.inputModalities.value)) else None
  }

  /** What the feed publishes for one field of one model, if anything. */
  function Published(specs: Specs, id: string, f: Field): Option<Value> {
    if id in specs then Incoming(f, specs[id]) else None
  }

  function CellOf(v: Option<Value>): Cell { if v.Some? then Text(v.value) else Null }

  function FeedSnapshot(spec: Option<Spec>): Feed {
    Recorded(map f: Field | f in TRACKED :: if spec.Some? then CellOf(Incoming(f, spec.value)) else Null)
  }

  /** A stored snapshot counts only if every cell is text or null. */
  predicate Readable(feed: Feed) {
    feed.Recorded? && forall f | f in feed.cells :: !feed.cells[f].Foreign?
  }

  function Baseline(feed: Feed, f: Field): Option<Value>
    requires Readable(feed)
  {
    if f in feed.cells && feed.cells[f].Text? then Some(feed.cells[f].v) else None
  }

  datatype FieldChange = FieldChange(field: Field, from: Option<Value>, to: Value)

  function Difference(feed: Feed, spec: Spec, f: Field): seq<FieldChange>
    requires Readable(feed)
  {
    var to := Incoming(f, spec);
    if to.Some? && Baseline(feed, f) != to then [FieldChange(f, Baseline(feed, f), to.value)] else []
  }

  function DifferencesIn(feed: Feed, spec: Spec, fields: seq<Field>): seq<FieldChange>
    requires Readable(feed)
  {
    if fields == [] then []
    else DifferencesIn(feed, spec, fields[..|fields| - 1]) + Difference(feed, spec, fields[|fields| - 1])
  }

  function SpecChanges(before: Option<Row>, spec: Option<Spec>): seq<FieldChange> {
    if before.None? || spec.None? || !Readable(before.value.feed) then []
    else DifferencesIn(before.value.feed, spec.value, TRACKED)
  }

  method DiffSpecs(before: Option<Row>, spec: Option<Spec>) returns (out: seq<FieldChange>)
    ensures out == SpecChanges(before, spec)
  {
    out := [];
    if before.None? || spec.None? || !Readable(before.value.feed) { return; }
    for i := 0 to |TRACKED|
      invariant out == DifferencesIn(before.value.feed, spec.value, TRACKED[..i])
    {
      assert TRACKED[..i + 1][..i] == TRACKED[..i];
      var f := TRACKED[i];
      var to := Incoming(f, spec.value);
      if to.Some? && Baseline(before.value.feed, f) != to {
        out := out + [FieldChange(f, Baseline(before.value.feed, f), to.value)];
      }
    }
    assert TRACKED[..|TRACKED|] == TRACKED;
  }

  // ----- one row -----------------------------------------------------------

  function Before(t: Table, id: string): Option<Row> {
    if id in t && t[id].status != Retired then Some(t[id]) else None
  }

  function Held(t: Table, id: string): Option<Row> {
    if id in t then Some(t[id]) else None
  }

  /** The upsert: a row keeps its first-seen time and its exclusion reason. */
  function RosterRow(held: Option<Row>, spec: Option<Spec>, at: Time): Row {
    var fresh_ := Row(Active, 0, None, at, at, None, FeedSnapshot(spec));
    if held.None? then fresh_
    else fresh_.(firstSeen := held.value.firstSeen, exclusion := held.value.exclusion)
  }

  function AbsentRow(r: Row, o: Options, at: Time): Row {
    if r.missCount + 1 >= o.retireAfterMisses
    then r.(status := Retired, missCount := r.missCount + 1)
    else r.(status := Missing, missCount := r.missCount + 1,
            missingSince := if r.missingSince.None? then Some(at) else r.missingSince)
  }

  function ChangeEvents(p: string, id: string, diffs: seq<FieldChange>, at: Time): seq<Event> {
    seq(|diffs|, i requires 0 <= i < |diffs| => Event(p, id, Changed(diffs[i].field, diffs[i].from, diffs[i].to), at))
  }

  function ArrivalEvents(p: string, id: string, before: Option<Row>, at: Time): seq<Event> {
    if before.None? then [Event(p, id, Added, at)]
    else if before.value.status == Missing then [Event(p, id, Readded(Missing), at)]
    else []
  }

  function ModelEvents(p: string, t: Table, id: string, specs: Specs, at: Time): seq<Event> {
    ArrivalEvents(p, id, Before(t, id), at) +
    ChangeEvents(p, id, SpecChanges(Before(t, id), SpecOf(specs, id)), at)
  }

  function AbsentEvent(p: string, id: string, r: Row, o: Options, at: Time): seq<Event> {
    if r.missCount + 1 >= o.retireAfterMisses then [Event(p, id, Removed(r.status, r.missCount + 1), at)]
    else if r.status != Missing then [Event(p, id, WentMissing(r.status, r.missCount + 1), at)]
    else []
  }

  // ----- one table ---------------------------------------------------------

  function Upserted(t: Table, roster: seq<string>, specs: Specs, at: Time): Table {
    map id | id in t.Keys + Elems(roster) ::
      if id in roster then RosterRow(Held(t, id), SpecOf(specs, id), at) else t[id]
  }

  function Settled(t: Table, absent: set<string>, o: Options, at: Time): Table {
    map id | id in t :: if id in absent then AbsentRow(t[id], o, at) else t[id]
  }

  function RosterEvents(p: string, t: Table, roster: seq<string>, specs: Specs, at: Time): seq<Event> {
    if roster == [] then []
    else RosterEvents(p, t, roster[..|roster| - 1], specs, at) + ModelEvents(p, t, roster[|roster| - 1], specs, at)
  }

  function ChangeCount(t: Table, roster: seq<string>, specs: Specs): nat {
    if roster == [] then 0
    else
      var id := roster[|roster| - 1];
      ChangeCount(t, roster[..|roster| - 1], specs) + |SpecChanges(Before(t, id), SpecOf(specs, id))|
  }

  function AbsentEvents(p: string, t: Table, absent: seq<string>, o: Options, at: Time): seq<Event> {
    if absent == [] then []
    else
      var id := absent[|absent| - 1];
      AbsentEvents(p, t, absent[..|absent| - 1], o, at) + (if id in t then AbsentEvent(p, id, t[id], o, at) else [])
  }

  function AbsentIds(t: Table, roster: seq<string>): set<string> {
    LiveIds(t) - Elems(roster)
  }

  /** The absent rows this run retires. */
  function Retiring(t: Table, absent: set<string>, o: Options): set<string> {
    set id | id in absent && id in t && t[id].missCount + 1 >= o.retireAfterMisses
  }

  function KeysOf(p: string, ids: set<string>): set<Key> {
    set id | id in ids :: Key(p, id)
  }

  // ----- layer 4: the removal gate ------------------------------------------

  /** `absent / denominator > ratio`, or more than the count: the run would remove too much. */
  predicate GateTrips(absent: nat, denominator: nat, o: Options) {
    absent > 0 && (absent as real > o.maxRemovalRatio * denominator as real || absent > o.maxRemovalCount)
  }

  datatype Judgement = Reject | Hold(kept: seq<string>) | Apply(roster: seq<string>)

  function Judge(t: Table, fetch: Fetch, o: Options): Judgement {
    var r := RosterOf(fetch);
    if r.None? then Reject
    else
      var live := |LiveIds(t)|;
      var denominator := if live == 0 then |r.value| else live;
      if GateTrips(|AbsentIds(t, r.value)|, denominator, o) then Hold(r.value) else Apply(r.value)
  }

  // ----- one run ------------------------------------------------------------

  function SyncedTable(t: Table, roster: seq<string>, x: SyncInput): Table {
    Settled(Upserted(t, roster, x.specs, x.at), AbsentIds(t, roster), x.options, x.at)
  }

  function SyncEvents(t: Table, roster: seq<string>, x: SyncInput): seq<Event> {
    RosterEvents(x.provider, t, roster, x.specs, x.at) +
    AbsentEvents(x.provider, t, Filter(x.scan, AbsentIds(t, roster)), x.options, x.at)
  }

  function Synced(s: Store, x: SyncInput): Store {
    var t := TableOf(s.tables, x.provider);
    match Judge(t, x.fetch, x.options)
    case Reject =>
      s.(runs := s.runs + [Run(x.provider, x.startedAt, x.at, Failed, 0, 0, 0, 0)])
    case Hold(roster) =>
      s.(runs := s.runs + [Run(x.provider, x.startedAt, x.at, Quarantined, |roster|, 0, |AbsentIds(t, roster)|, 0)])
    case Apply(roster) => Applied(s, t, roster, x)
  }

  function Applied(s: Store, t: Table, roster: seq<string>, x: SyncInput): Store {
    var retiring := Retiring(t, AbsentIds(t, roster), x.options);
    Store(
      s.tables[x.provider := SyncedTable(t, roster, x)],
      s.ledger + SyncEvents(t, roster, x),
      s.runs + [Run(x.provider, x.startedAt, x.at, Ok, |roster|,
                    |Elems(roster) - LiveIds(t)|, |retiring|, ChangeCount(t, roster, x.specs))],
      CompleteAll(s.jobs, KeysOf(x.provider, retiring), x.at))
  }

  /** What an applied run answers: the ids that were not live, in roster order, and those it retires, in query order. */
  ghost predicate Answers(t: Table, x: SyncInput, r: RunResult) {
    && RosterOf(x.fetch).Some?
    && var roster := RosterOf(x.fetch).value;
       && r.rosterCount == |roster|
       && r.added == Filter(roster, Elems(roster) - LiveIds(t))
       && r.removed == Filter(Filter(x.scan, AbsentIds(t, roster)), Retiring(t, AbsentIds(t, roster), x.options))
       && r.changed == ChangeCount(t, roster, x.specs)
  }

  // ----- the store's own loops ----------------------------------------------

  class Catalog {
    var tables: map<string, Table>
    var ledger: seq<Event>
    var runs: seq<Run>
    const queue: JobQueue

    function State(): Store
      reads this, queue
    {
      Store(tables, ledger, runs, queue.jobs)
    }

    constructor ()
      ensures State() == Store(map[], [], [], map[])
      ensures fresh(queue)
    {
      tables, ledger, runs := map[], [], [];
      queue := new JobQueue();
    }

    /** Never fails for an upstream problem: an unreadable roster is a recorded run. */
    method SyncProvider(x: SyncInput) returns (r: RunResult)
      requires Enumerates(x.scan, LiveIds(TableOf(tables, x.provider)))
      modifies this, queue
      ensures State() == Synced(old(State()), x)
      ensures r.outcome == runs[|runs| - 1].outcome && r.changed == runs[|runs| - 1].changed
      ensures |r.added| == runs[|runs| - 1].added
      ensures r.outcome == Ok ==>
              |r.removed| == runs[|runs| - 1].removed && Answers(TableOf(old(tables), x.provider), x, r)
      ensures r.outcome != Ok ==> r.added == [] && r.removed == []
    {
      var roster := ValidateRoster(x.fetch);
      if roster.None? {
        SyncedRejects(State(), x);
        runs := runs + [Run(x.provider, x.startedAt, x.at, Failed, 0, 0, 0, 0)];
        return RunResult(Failed, 0, [], [], 0);
      }
      r := SyncRoster(x, roster.value);
    }

    /** Behind the gate: a readable roster is held, or applied whole. */
    method SyncRoster(x: SyncInput, roster: seq<string>) returns (r: RunResult)
      requires Enumerates(x.scan, LiveIds(TableOf(tables, x.provider))) && RosterOf(x.fetch) == Some(roster)
      modifies this, queue
      ensures State() == Synced(old(State()), x)
      ensures |runs| > 0 && r.outcome == runs[|runs| - 1].outcome && r.changed == runs[|runs| - 1].changed
      ensures |r.added| == runs[|runs| - 1].added
      ensures r.outcome == Ok ==>
              |r.removed| == runs[|runs| - 1].removed && Answers(TableOf(old(tables), x.provider), x, r)
      ensures r.outcome != Ok ==> r.added == [] && r.removed == []
    {
      var t := TableOf(tables, x.provider);
      var absent := Filter(x.scan, AbsentIds(t, roster));
      var added := Filter(roster, Elems(roster) - LiveIds(t));
      var denominator := if |x.scan| == 0 then |roster| else |x.scan|;
      AddedIsCounted(t, x.fetch);
      GateDecides(State(), x, roster, absent, denominator);
      if GateTrips(|absent|, denominator, x.options) {
        runs := runs + [Run(x.provider, x.startedAt, x.at, Quarantined, |roster|, 0, |absent|, 0)];
        return RunResult(Quarantined, |roster|, [], [], 0);
      }
      var changed, removed := ApplyRoster(x, t, roster, absent, |added|);
      r := RunResult(Ok, |roster|, added, removed, changed);
      AppliedAnswers(t, x, roster, r);
    }

    /** One transaction: rows, events and retirements are built up and land together. */
    method ApplyRoster(x: SyncInput, t: Table, roster: seq<string>, absent: seq<string>, added: nat)
      returns (changed: nat, removed: seq<string>)
      requires absent == Filter(x.scan, AbsentIds(t, roster)) && Enumerates(absent, AbsentIds(t, roster))
      requires added == |Elems(roster) - LiveIds(t)|
      modifies this, queue
      ensures State() == Applied(old(State()), t, roster, x)
      ensures |runs| > 0 && |removed| == runs[|runs| - 1].removed && changed == runs[|runs| - 1].changed
      ensures runs[|runs| - 1].outcome == Ok && runs[|runs| - 1].added == added
      ensures changed == ChangeCount(t, roster, x.specs)
      ensures removed == Filter(absent, Retiring(t, AbsentIds(t, roster), x.options))
    {
      ghost var s := State();
      var upserted, arrivals, changedFields := UpsertRoster(x, t, roster);
      var settled, departures, retired := SettleAbsent(x, upserted, AbsentIds(t, roster), absent);
      changed, removed := changedFields, retired;
      AbsentRowsAreUntouched(t, roster, x, absent);
      EnumerationSize(removed, Retiring(t, AbsentIds(t, roster), x.options));
      CommitRun(x, settled, arrivals + departures,
                Run(x.provider, x.startedAt, x.at, Ok, |roster|, added, |removed|, changed));
    }

    method CommitRun(x: SyncInput, table: Table, events: seq<Event>, run: Run)
      modifies this
      ensures tables == old(tables)[x.provider := table]
      ensures ledger == old(ledger) + events
      ensures runs == old(runs) + [run]
    {
      tables := tables[x.provider := table];
      ledger := ledger + events;
      runs := runs + [run];
    }

    /** Upsert every rostered model and record what moved since `stored`. */
    static method UpsertRoster(x: SyncInput, stored: Table, roster: seq<string>)
      returns (table: Table, events: seq<Event>, changed: nat)
      ensures table == Upserted(stored, roster, x.specs, x.at)
      ensures events == RosterEvents(x.provider, stored, roster, x.specs, x.at)
      ensures changed == ChangeCount(stored, roster, x.specs)
    {
      table, events, changed := stored, [], 0;
      assert Upserted(stored, [], x.specs, x.at) == stored;
      for i := 0 to |roster|
        invariant table == Upserted(stored, roster[..i], x.specs, x.at)
        invariant events == RosterEvents(x.provider, stored, roster[..i], x.specs, x.at)
        invariant changed == ChangeCount(stored, roster[..i], x.specs)
      {
        var id := roster[i];
        NextOf(roster, i);
        UpsertStep(stored, roster[..i], id, x.specs, x.at);
        var diffs := DiffSpecs(Before(stored, id), SpecOf(x.specs, id));
        changed := changed + |diffs|;
        table := table[id := RosterRow(Held(table, id), SpecOf(x.specs, id), x.at)];
        events := events + (ArrivalEvents(x.provider, id, Before(stored, id), x.at)
                            + ChangeEvents(x.provider, id, diffs, x.at));
      }
      assert roster[..|roster|] == roster;
    }

    /** Each omitted row retires, together with its resolution job, or is marked missing. */
    method SettleAbsent(x: SyncInput, upserted: Table, ghost ids: set<string>, absent: seq<string>)
      returns (table: Table, events: seq<Event>, retired: seq<string>)
      requires Enumerates(absent, ids) && ids <= upserted.Keys
      modifies queue
      ensures table == Settled(upserted, ids, x.options, x.at)
      ensures events == AbsentEvents(x.provider, upserted, absent, x.options, x.at)
      ensures queue.jobs == CompleteAll(old(queue.jobs), KeysOf(x.provider, Retiring(upserted, ids, x.options)), x.at)
      ensures Enumerates(retired, Retiring(upserted, ids, x.options))
      ensures retired == Filter(absent, Retiring(upserted, ids, x.options))
    {
      ghost var jobs0 := queue.jobs;
      table, events, retired := upserted, [], [];
      NothingSettled(upserted, jobs0, x);
      for i := 0 to |absent|
        invariant table == Settled(upserted, Elems(absent[..i]), x.options, x.at)
        invariant events == AbsentEvents(x.provider, upserted, absent[..i], x.options, x.at)
        invariant queue.jobs == CompleteAll(jobs0,
                  KeysOf(x.provider, Retiring(upserted, Elems(absent[..i]), x.options)), x.at)
        invariant Enumerates(retired, Retiring(upserted, Elems(absent[..i]), x.options))
        invariant retired == Filter(absent[..i], Retiring(upserted, ids, x.options))
      {
        var id := absent[i];
        NextOf(absent, i);
        assert id in Elems(absent);
        SettleStep(upserted, Elems(absent[..i]), id, x.options, x.at);
        RetireStep(jobs0, x, upserted, Elems(absent[..i]), id);
        var event, gone := RetireOrMiss(x, id, table[id]);
        events := events + event;
        if gone {
          OneMore(retired, Retiring(upserted, Elems(absent[..i]), x.options), id);
          retired := retired + [id];
        }
        table := table[id := AbsentRow(table[id], x.options, x.at)];
      }
      assert absent[..|absent|] == absent;
    }

    method RetireOrMiss(x: SyncInput, id: string, m: Row) returns (event: seq<Event>, gone: bool)
      modifies queue
      ensures event == AbsentEvent(x.provider, id, m, x.options, x.at)
      ensures gone == (m.missCount + 1 >= x.options.retireAfterMisses)
      ensures queue.jobs == if gone then CompleteAll(old(queue.jobs), {Key(x.provider, id)}, x.at) else old(queue.jobs)
    {
      var misses := m.missCount + 1;
      gone := misses >= x.options.retireAfterMisses;
      if gone {
        queue.CompleteResolutionJob(Key(x.provider, id), x.at);
        event := [Event(x.provider, id, Removed(m.status, misses), x.at)];
      } else if m.status != Missing {
        event := [Event(x.provider, id, WentMissing(m.status, misses), x.at)];
      } else {
        event := [];
      }
    }
  }

  // ----- loop bookkeeping ----------------------------------------------------

  lemma SyncedRejects(s: Store, x: SyncInput)
    requires RosterOf(x.fetch).None?
    ensures Synced(s, x) == s.(runs := s.runs + [Run(x.provider, x.startedAt, x.at, Failed, 0, 0, 0, 0)])
  {
  }

  /** What a readable roster comes to, on either side of the gate. */
  lemma SyncedByGate(s: Store, x: SyncInput, roster: seq<string>)
    requires RosterOf(x.fetch) == Some(roster)
    ensures var t := TableOf(s.tables, x.provider);
            var absent, live := |AbsentIds(t, roster)|, |LiveIds(t)|;
            Synced(s, x) ==
            if GateTrips(absent, if live == 0 then |roster| else live, x.options)
            then s.(runs := s.runs + [Run(x.provider, x.startedAt, x.at, Quarantined, |roster|, 0, absent, 0)])
            else Applied(s, t, roster, x)
  {
  }

  /** The same from what the loops have counted. */
  lemma GateDecides(s: Store, x: SyncInput, roster: seq<string>, absent: seq<string>, denominator: nat)
    requires RosterOf(x.fetch) == Some(roster) && Enumerates(x.scan, LiveIds(TableOf(s.tables, x.provider)))
    requires absent == Filter(x.scan, AbsentIds(TableOf(s.tables, x.provider), roster))
    requires denominator == if |x.scan| == 0 then |roster| else |x.scan|
    ensures Enumerates(absent, AbsentIds(TableOf(s.tables, x.provider), roster))
    ensures GateTrips(|absent|, denominator, x.options) ==>
              Synced(s, x) ==
              s.(runs := s.runs + [Run(x.provider, x.startedAt, x.at, Quarantined, |roster|, 0, |absent|, 0)])
    ensures !GateTrips(|absent|, denominator, x.options) ==>
              Synced(s, x) == Applied(s, TableOf(s.tables, x.provider), roster, x)
  {
    AbsentIsCounted(TableOf(s.tables, x.provider), roster, x);
    SyncedByGate(s, x, roster);
  }

  /** The answer of an applied run, from what its loops found. */
  lemma AppliedAnswers(t: Table, x: SyncInput, roster: seq<string>, r: RunResult)
    requires RosterOf(x.fetch) == Some(roster) && r.rosterCount == |roster|
    requires r.added == Filter(roster, Elems(roster) - LiveIds(t))
    requires r.removed == Filter(Filter(x.scan, AbsentIds(t, roster)), Retiring(t, AbsentIds(t, roster), x.options))
    requires r.changed == ChangeCount(t, roster, x.specs)
    ensures Answers(t, x, r)
  {
  }

  lemma AbsentIsCounted(t: Table, roster: seq<string>, x: SyncInput)
    requires Enumerates(x.scan, LiveIds(t))
    ensures var absent := Filter(x.scan, AbsentIds(t, roster));
            Enumerates(absent, AbsentIds(t, roster)) && |absent| == |AbsentIds(t, roster)|
    ensures |x.scan| == |LiveIds(t)|
  {
    var absent := Filter(x.scan, AbsentIds(t, roster));
    FilterEnumerates(x.scan, AbsentIds(t, roster));
    assert LiveIds(t) * AbsentIds(t, roster) == AbsentIds(t, roster);
    EnumerationSize(absent, AbsentIds(t, roster));
    EnumerationSize(x.scan, LiveIds(t));
  }

  lemma AddedIsCounted(t: Table, fetch: Fetch)
    requires RosterOf(fetch).Some?
    ensures var roster := RosterOf(fetch).value;
            |Filter(roster, Elems(roster) - LiveIds(t))| == |Elems(roster) - LiveIds(t)|
  {
    var roster := RosterOf(fetch).value;
    DeduplicatedIsTheSetOfNames(fetch.entries);
    FilterEnumerates(roster, Elems(roster) - LiveIds(t));
    assert Elems(roster) * (Elems(roster) - LiveIds(t)) == Elems(roster) - LiveIds(t);
    EnumerationSize(Filter(roster, Elems(roster) - LiveIds(t)), Elems(roster) - LiveIds(t));
  }

  lemma NextOf(s: seq<string>, i: nat)
    requires i < |s|
    ensures s[..i + 1] == s[..i] + [s[i]] && s[..i + 1][..i] == s[..i]
    ensures Elems(s[..i + 1]) == Elems(s[..i]) + {s[i]}
    ensures Distinct(s) ==> s[i] !in Elems(s[..i])
  {
  }

  lemma OneMore(s: seq<string>, ids: set<string>, id: string)
    requires Enumerates(s, ids) && id !in ids
    ensures Enumerates(s + [id], ids + {id})
  {
    assert id !in Elems(s);
  }

  lemma NothingSettled(t: Table, jobs: Jobs, x: SyncInput)
    ensures Settled(t, Elems([]), x.options, x.at) == t
    ensures Retiring(t, Elems([]), x.options) == {}
    ensures CompleteAll(jobs, KeysOf(x.provider, Retiring(t, Elems([]), x.options)), x.at) == jobs
  {
  }

  /** The upserts of a run do not touch the rows that are about to be settled. */
  lemma AbsentRowsAreUntouched(t: Table, roster: seq<string>, x: SyncInput, absent: seq<string>)
    requires Enumerates(absent, AbsentIds(t, roster))
    ensures var u := Upserted(t, roster, x.specs, x.at);
            && AbsentEvents(x.provider, u, absent, x.options, x.at) ==
              AbsentEvents(x.provider, t, absent, x.options, x.at)
            && Retiring(u, AbsentIds(t, roster), x.options) == Retiring(t, AbsentIds(t, roster), x.options)
  {
    var u := Upserted(t, roster, x.specs, x.at);
    assert forall id | id in absent :: id in Elems(absent);
    SameAbsentEvents(x.provider, u, t, absent, x.options, x.at);
  }

  lemma {:induction false} SameAbsentEvents(p: string, u: Table, t: Table, absent: seq<string>, o: Options, at: Time)
    requires forall id | id in absent :: id in u && id in t && u[id] == t[id]
    ensures AbsentEvents(p, u, absent, o, at) == AbsentEvents(p, t, absent, o, at)
  {
    if absent != [] {
      SameAbsentEvents(p, u, t, absent[..|absent| - 1], o, at);
    }
  }

  lemma UpsertStep(t: Table, seen: seq<string>, id: string, specs: Specs, at: Time)
    ensures var u := Upserted(t, seen, specs, at);
            Upserted(t, seen + [id], specs, at) == u[id := RosterRow(Held(u, id), SpecOf(specs, id), at)]
  {
    var u := Upserted(t, seen, specs, at);
    var next := u[id := RosterRow(Held(u, id), SpecOf(specs, id), at)];
    assert Upserted(t, seen + [id], specs, at).Keys == next.Keys;
  }

  lemma SettleStep(t: Table, seen: set<string>, id: string, o: Options, at: Time)
    requires id in t && id !in seen
    ensures var u := Settled(t, seen, o, at);
            && id in u && u[id] == t[id]
            && Settled(t, seen + {id}, o, at) == u[id := AbsentRow(u[id], o, at)]
  {
  }

  lemma RetireStep(jobs: Jobs, x: SyncInput, t: Table, seen: set<string>, id: string)
    requires id in t && id !in seen
    ensures var less := Retiring(t, seen, x.options);
            var more := Retiring(t, seen + {id}, x.options);
            if t[id].missCount + 1 >= x.options.retireAfterMisses then
              && more == less + {id} && id !in less
              && CompleteAll(jobs, KeysOf(x.provider, more), x.at)
                 == CompleteAll(CompleteAll(jobs, KeysOf(x.provider, less), x.at), {Key(x.provider, id)}, x.at)
            else more == less
  {
    var less := Retiring(t, seen, x.options);
    assert KeysOf(x.provider, less + {id}) == KeysOf(x.provider, less) + {Key(x.provider, id)};
  }
}
