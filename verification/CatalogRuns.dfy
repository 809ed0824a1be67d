/**
 What the engine and the publish policy keep over whole runs. A run is any
 sequence of engine and policy steps, of any providers, starting from any store;
 each step is checked against what it does to one row and to that row's events
 in the ledger.
 */
module CatalogRuns {
  import opened CatalogTypes
  import opened SyncEngine
  import opened PublishPolicy
  import opened Wrappers

  datatype Step = Sync(x: SyncInput) | Policy(g: Governed, at: Time)

  const EMPTY_STORE := Store(map[], [], [], map[])

  function Next(s: Store, step: Step): Store {
    match step
    case Sync(x) => Synced(s, x)
    case Policy(g, at) => PolicyOne(s, g, at)
  }

  /** The database returned each live row of the provider once. */
  ghost predicate Admits(s: Store, step: Step) {
    match step
    case Sync(x) => Enumerates(x.scan, LiveIds(TableOf(s.tables, x.provider)))
    case Policy(g, _) => Enumerates(g.scan, LiveIds(TableOf(s.tables, g.adapter.provider)))
  }

  function After(start: Store, steps: seq<Step>): Store {
    if steps == [] then start else Next(After(start, steps[..|steps| - 1]), steps[|steps| - 1])
  }

  ghost predicate IsRun(start: Store, steps: seq<Step>) {
    || steps == []
    || (IsRun(start, steps[..|steps| - 1]) && Admits(After(start, steps[..|steps| - 1]), steps[|steps| - 1]))
  }

  // ----- one row under one step -----------------------------------------------

  function RowAt(s: Store, p: string, id: string): Option<Row> {
    Held(TableOf(s.tables, p), id)
  }

  /** How a step reads a roster of provider `p`: anything but a sync of `p` reads none. */
  function Reading(s: Store, step: Step, p: string): Judgement {
    if step.Sync? && step.x.provider == p then Judge(TableOf(s.tables, p), step.x.fetch, step.x.options) else Reject
  }

  predicate Lists(s: Store, step: Step, p: string, id: string) {
    var reading := Reading(s, step, p);
    reading.Apply? && id in reading.roster
  }

  predicate IsLive(r: Option<Row>) { r.Some? && r.value.status != Retired }

  /** An applied roster of the provider leaves this live row out. */
  predicate Omits(s: Store, step: Step, p: string, id: string) {
    var reading := Reading(s, step, p);
    reading.Apply? && id !in reading.roster && IsLive(RowAt(s, p, id))
  }

  predicate Governs(step: Step, p: string) {
    step.Policy? && step.g.adapter.provider == p
  }

  function Live(r: Option<Row>): Option<Row> { if IsLive(r) then r else None }

  /** One row under an applied roster. */
  function RowUnder(r: Option<Row>, listed: bool, x: SyncInput, id: string): Option<Row> {
    if listed then Some(RosterRow(r, SpecOf(x.specs, id), x.at))
    else if IsLive(r) then Some(AbsentRow(r.value, x.options, x.at))
    else r
  }

  function EventsUnder(r: Option<Row>, listed: bool, x: SyncInput, id: string): seq<Event> {
    if listed then
      ArrivalEvents(x.provider, id, Live(r), x.at) +
      ChangeEvents(x.provider, id, SpecChanges(Live(r), SpecOf(x.specs, id)), x.at)
    else if IsLive(r) then AbsentEvent(x.provider, id, r.value, x.options, x.at)
    else []
  }

  function NextRow(s: Store, step: Step, p: string, id: string): Option<Row> {
    var r, reading := RowAt(s, p, id), Reading(s, step, p);
    if reading.Apply? then RowUnder(r, id in reading.roster, step.x, id)
    else if Governs(step, p) && r.Some? then Some(PolicyRow(step.g.adapter, step.g.specs, id, r.value))
    else r
  }

  function NextEvents(s: Store, step: Step, p: string, id: string): seq<Event> {
    var r, reading := RowAt(s, p, id), Reading(s, step, p);
    if reading.Apply? then EventsUnder(r, id in reading.roster, step.x, id)
    else if Governs(step, p) && r.Some? then PolicyEvent(step.g.adapter, step.g.specs, id, r.value, step.at)
    else []
  }

  /** The part of a ledger that speaks about one row. */
  function About(es: seq<Event>, p: string, id: string): seq<Event> {
    if es == [] then []
    else
      var e := es[|es| - 1];
      About(es[..|es| - 1], p, id) + (if e.provider == p && e.model == id then [e] else [])
  }

  lemma {:induction false} AboutAppends(es: seq<Event>, fs: seq<Event>, p: string, id: string)
    ensures About(es + fs, p, id) == About(es, p, id) + About(fs, p, id)
  {
    if fs == [] {
      assert es + fs == es;
    } else {
      assert (es + fs)[..|es + fs| - 1] == es + fs[..|fs| - 1];
      AboutAppends(es, fs[..|fs| - 1], p, id);
    }
  }

  ghost predicate Tells(es: seq<Event>, p: string, id: string) {
    forall i | 0 <= i < |es| :: es[i].provider == p && es[i].model == id
  }

  lemma {:induction false} AboutTold(es: seq<Event>, p: string, told: string, id: string)
    requires Tells(es, p, told)
    ensures About(es, p, id) == if id == told then es else []
  {
    if es != [] {
      AboutTold(es[..|es| - 1], p, told, id);
    }
  }

  lemma {:induction false} AboutNone(es: seq<Event>, p: string, id: string)
    requires forall i | 0 <= i < |es| :: es[i].provider != p
    ensures About(es, p, id) == []
  {
    if es != [] {
      AboutNone(es[..|es| - 1], p, id);
    }
  }

  lemma ModelEventsTell(p: string, t: Table, id: string, specs: Specs, at: Time)
    ensures Tells(ModelEvents(p, t, id, specs, at), p, id)
  {
    var diffs := SpecChanges(Before(t, id), SpecOf(specs, id));
    assert Tells(ArrivalEvents(p, id, Before(t, id), at), p, id);
    assert Tells(ChangeEvents(p, id, diffs, at), p, id);
  }

  /** Events about one row, appended, are heard by that row alone. */
  lemma AboutOneMore(before: seq<Event>, es: seq<Event>, p: string, told: string, id: string)
    requires Tells(es, p, told) && (id == told ==> About(before, p, id) == [])
    ensures About(before + es, p, id) == if id == told then es else About(before, p, id)
  {
    AboutAppends(before, es, p, id);
    AboutTold(es, p, told, id);
  }

  /** In a list without duplicates the last is not among the others. */
  lemma LastIsNew(ids: seq<string>, id: string)
    requires Distinct(ids) && ids != []
    ensures Distinct(ids[..|ids| - 1]) && ids[|ids| - 1] !in ids[..|ids| - 1]
    ensures id in ids <==> id in ids[..|ids| - 1] || id == ids[|ids| - 1]
  {
    assert ids == ids[..|ids| - 1] + [ids[|ids| - 1]];
  }

  lemma {:induction false} AboutRoster(p: string, t: Table, roster: seq<string>, specs: Specs, at: Time, id: string)
    requires Distinct(roster)
    ensures About(RosterEvents(p, t, roster, specs, at), p, id) ==
            if id in roster then ModelEvents(p, t, id, specs, at) else []
  {
    if roster != [] {
      var front, last := roster[..|roster| - 1], roster[|roster| - 1];
      LastIsNew(roster, id);
      AboutRoster(p, t, front, specs, at, id);
      ModelEventsTell(p, t, last, specs, at);
      AboutOneMore(RosterEvents(p, t, front, specs, at), ModelEvents(p, t, last, specs, at), p, last, id);
    }
  }

  function AbsentTold(p: string, t: Table, id: string, o: Options, at: Time): seq<Event> {
    if id in t then AbsentEvent(p, id, t[id], o, at) else []
  }

  lemma {:induction false} AboutAbsent(p: string, t: Table, absent: seq<string>, o: Options, at: Time, id: string)
    requires Distinct(absent)
    ensures About(AbsentEvents(p, t, absent, o, at), p, id) == if id in absent then AbsentTold(p, t, id, o, at) else []
  {
    if absent != [] {
      var front, last := absent[..|absent| - 1], absent[|absent| - 1];
      LastIsNew(absent, id);
      AboutAbsent(p, t, front, o, at, id);
      AboutOneMore(AbsentEvents(p, t, front, o, at), AbsentTold(p, t, last, o, at), p, last, id);
    }
  }

  function PolicyTold(g: Governed, t: Table, id: string, at: Time): seq<Event> {
    if id in t then PolicyEvent(g.adapter, g.specs, id, t[id], at) else []
  }

  lemma PolicyTells(g: Governed, t: Table, id: string, at: Time)
    ensures Tells(PolicyTold(g, t, id, at), g.adapter.provider, id)
  {
  }

  lemma PolicyOneMore(g: Governed, t: Table, scan: seq<string>, at: Time, id: string)
    requires scan != [] && (id == scan[|scan| - 1] ==>
             About(PolicyEvents(g, t, scan[..|scan| - 1], at), g.adapter.provider, id) == [])
    ensures About(PolicyEvents(g, t, scan, at), g.adapter.provider, id) ==
            if id == scan[|scan| - 1] then PolicyTold(g, t, id, at)
            else About(PolicyEvents(g, t, scan[..|scan| - 1], at), g.adapter.provider, id)
  {
    var front, last := scan[..|scan| - 1], scan[|scan| - 1];
    PolicyTells(g, t, last, at);
    AboutOneMore(PolicyEvents(g, t, front, at), PolicyTold(g, t, last, at), g.adapter.provider, last, id);
  }

  lemma {:induction false} AboutPolicy(g: Governed, t: Table, scan: seq<string>, at: Time, id: string)
    requires Distinct(scan)
    ensures About(PolicyEvents(g, t, scan, at), g.adapter.provider, id) ==
            if id in scan then PolicyTold(g, t, id, at) else []
  {
    if scan != [] {
      LastIsNew(scan, id);
      AboutPolicy(g, t, scan[..|scan| - 1], at, id);
      PolicyOneMore(g, t, scan, at, id);
    }
  }

  lemma {:induction false} NoPolicyEvents(g: Governed, t: Table, scan: seq<string>, at: Time, p: string, id: string)
    requires p != g.adapter.provider
    ensures About(PolicyEvents(g, t, scan, at), p, id) == []
  {
    if scan != [] {
      var front, last := scan[..|scan| - 1], scan[|scan| - 1];
      NoPolicyEvents(g, t, front, at, p, id);
      AboutNone(PolicyTold(g, t, last, at), p, id);
      AboutAppends(PolicyEvents(g, t, front, at), PolicyTold(g, t, last, at), p, id);
    }
  }

  lemma {:induction false} NoRosterEvents(p: string, q: string, t: Table,
    roster: seq<string>, specs: Specs, at: Time, id: string)
    requires q != p
    ensures About(RosterEvents(q, t, roster, specs, at), p, id) == []
  {
    if roster != [] {
      var front, last := roster[..|roster| - 1], roster[|roster| - 1];
      NoRosterEvents(p, q, t, front, specs, at, id);
      ModelEventsTell(q, t, last, specs, at);
      AboutNone(ModelEvents(q, t, last, specs, at), p, id);
      AboutAppends(RosterEvents(q, t, front, specs, at), ModelEvents(q, t, last, specs, at), p, id);
    }
  }

  lemma {:induction false} NoAbsentEvents(p: string, q: string, t: Table,
    absent: seq<string>, o: Options, at: Time, id: string)
    requires q != p
    ensures About(AbsentEvents(q, t, absent, o, at), p, id) == []
  {
    if absent != [] {
      var front, last := absent[..|absent| - 1], absent[|absent| - 1];
      NoAbsentEvents(p, q, t, front, o, at, id);
      var es := if last in t then AbsentEvent(q, last, t[last], o, at) else [];
      AboutNone(es, p, id);
      AboutAppends(AbsentEvents(q, t, front, o, at), es, p, id);
    }
  }

  /** An adapter nobody governs would change nothing if it were. */
  lemma UngovernedChangesNothing(g: Governed, id: string, r: Row, at: Time)
    requires !IsGoverned(g.adapter)
    ensures PolicyRow(g.adapter, g.specs, id, r) == r
    ensures PolicyEvent(g.adapter, g.specs, id, r, at) == []
  {
  }

  lemma AppliedRow(t: Table, roster: seq<string>, x: SyncInput, id: string)
    ensures Held(SyncedTable(t, roster, x), id) == RowUnder(Held(t, id), id in roster, x, id)
  {
    assert id in AbsentIds(t, roster) <==> id !in roster && IsLive(Held(t, id));
  }

  lemma AppliedEvents(t: Table, roster: seq<string>, x: SyncInput, id: string)
    requires Distinct(roster) && Enumerates(x.scan, LiveIds(t))
    ensures About(SyncEvents(t, roster, x), x.provider, id) == EventsUnder(Held(t, id), id in roster, x, id)
  {
    var p := x.provider;
    var absent := Filter(x.scan, AbsentIds(t, roster));
    AbsentIsCounted(t, roster, x);
    AboutRoster(p, t, roster, x.specs, x.at, id);
    AboutAbsent(p, t, absent, x.options, x.at, id);
    AboutAppends(RosterEvents(p, t, roster, x.specs, x.at), AbsentEvents(p, t, absent, x.options, x.at), p, id);
    AbsentOrListed(t, roster, absent, id);
    EventsInTwoParts(t, roster, x, id);
  }

  lemma AbsentOrListed(t: Table, roster: seq<string>, absent: seq<string>, id: string)
    requires Enumerates(absent, AbsentIds(t, roster))
    ensures id in absent <==> id !in roster && IsLive(Held(t, id))
  {
    assert id in absent <==> id in Elems(absent);
  }

  lemma EventsInTwoParts(t: Table, roster: seq<string>, x: SyncInput, id: string)
    ensures EventsUnder(Held(t, id), id in roster, x, id) ==
            (if id in roster then ModelEvents(x.provider, t, id, x.specs, x.at) else []) +
            (if id !in roster && IsLive(Held(t, id)) then AbsentEvent(x.provider, id, t[id], x.options, x.at) else [])
  {
    assert Before(t, id) == Live(Held(t, id));
  }

  lemma ForeignEvents(t: Table, roster: seq<string>, x: SyncInput, p: string, id: string)
    requires x.provider != p
    ensures About(SyncEvents(t, roster, x), p, id) == []
  {
    var absent := Filter(x.scan, AbsentIds(t, roster));
    NoRosterEvents(p, x.provider, t, roster, x.specs, x.at, id);
    NoAbsentEvents(p, x.provider, t, absent, x.options, x.at, id);
    AboutAppends(RosterEvents(x.provider, t, roster, x.specs, x.at),
                 AbsentEvents(x.provider, t, absent, x.options, x.at), p, id);
  }

  lemma AppliedOnRow(s: Store, t: Table, roster: seq<string>, x: SyncInput, p: string, id: string)
    requires t == TableOf(s.tables, x.provider) && Distinct(roster) && Enumerates(x.scan, LiveIds(t))
    ensures RowAt(Applied(s, t, roster, x), p, id) ==
            if p == x.provider then RowUnder(RowAt(s, p, id), id in roster, x, id) else RowAt(s, p, id)
    ensures About(Applied(s, t, roster, x).ledger, p, id) == About(s.ledger, p, id) +
            if p == x.provider then EventsUnder(RowAt(s, p, id), id in roster, x, id) else []
  {
    AboutAppends(s.ledger, SyncEvents(t, roster, x), p, id);
    if x.provider == p {
      AppliedRow(t, roster, x, id);
      AppliedEvents(t, roster, x, id);
    } else {
      ForeignEvents(t, roster, x, p, id);
    }
  }

  lemma SyncOnRow(s: Store, x: SyncInput, p: string, id: string)
    requires Admits(s, Sync(x))
    ensures RowAt(Synced(s, x), p, id) == NextRow(s, Sync(x), p, id)
    ensures About(Synced(s, x).ledger, p, id) == About(s.ledger, p, id) + NextEvents(s, Sync(x), p, id)
  {
    var t := TableOf(s.tables, x.provider);
    var verdict := Judge(t, x.fetch, x.options);
    SyncByVerdict(s, x, verdict);
    NextByVerdict(s, x, verdict, p, id);
    if verdict.Apply? {
      AppliedRosterIsDistinct(t, x);
      AppliedOnRow(s, t, verdict.roster, x, p, id);
    }
  }

  lemma AppliedRosterIsDistinct(t: Table, x: SyncInput)
    requires Judge(t, x.fetch, x.options).Apply?
    ensures Distinct(Judge(t, x.fetch, x.options).roster)
  {
    DeduplicatedIsTheSetOfNames(x.fetch.entries);
  }

  lemma SyncByVerdict(s: Store, x: SyncInput, verdict: Judgement)
    requires verdict == Judge(TableOf(s.tables, x.provider), x.fetch, x.options)
    ensures verdict.Apply? ==> Synced(s, x) == Applied(s, TableOf(s.tables, x.provider), verdict.roster, x)
    ensures !verdict.Apply? ==>
              Synced(s, x).tables == s.tables && Synced(s, x).ledger == s.ledger && Synced(s, x).jobs == s.jobs
  {
  }

  lemma NextByVerdict(s: Store, x: SyncInput, verdict: Judgement, p: string, id: string)
    requires verdict == Judge(TableOf(s.tables, x.provider), x.fetch, x.options)
    ensures NextRow(s, Sync(x), p, id) ==
            if verdict.Apply? && p == x.provider then RowUnder(RowAt(s, p, id), id in verdict.roster, x, id)
            else RowAt(s, p, id)
    ensures NextEvents(s, Sync(x), p, id) ==
            if verdict.Apply? && p == x.provider then EventsUnder(RowAt(s, p, id), id in verdict.roster, x, id) else []
  {
  }

  lemma AboutGoverned(g: Governed, t: Table, at: Time, p: string, id: string)
    requires Enumerates(g.scan, LiveIds(t))
    ensures About(PolicyEvents(g, t, g.scan, at), p, id) ==
            if p == g.adapter.provider then PolicyTold(g, t, id, at) else []
  {
    if p == g.adapter.provider {
      AboutPolicy(g, t, g.scan, at, id);
      assert id in g.scan <==> id in Elems(g.scan);
    } else {
      NoPolicyEvents(g, t, g.scan, at, p, id);
    }
  }

  lemma PolicyOnRow(s: Store, g: Governed, at: Time, p: string, id: string)
    requires Admits(s, Policy(g, at))
    ensures RowAt(PolicyOne(s, g, at), p, id) == NextRow(s, Policy(g, at), p, id)
    ensures About(PolicyOne(s, g, at).ledger, p, id) == About(s.ledger, p, id) + NextEvents(s, Policy(g, at), p, id)
  {
    var t := TableOf(s.tables, g.adapter.provider);
    if !IsGoverned(g.adapter) {
      if RowAt(s, p, id).Some? {
        UngovernedChangesNothing(g, id, RowAt(s, p, id).value, at);
      }
    } else {
      AboutAppends(s.ledger, PolicyEvents(g, t, g.scan, at), p, id);
      AboutGoverned(g, t, at, p, id);
    }
  }

  /** Every step acts on a row through `NextRow`, and tells exactly `NextEvents` about it. */
  lemma StepOnRow(s: Store, step: Step, p: string, id: string)
    requires Admits(s, step)
    ensures RowAt(Next(s, step), p, id) == NextRow(s, step, p, id)
    ensures About(Next(s, step).ledger, p, id) == About(s.ledger, p, id) + NextEvents(s, step, p, id)
  {
    match step
    case Sync(x) => SyncOnRow(s, x, p, id);
    case Policy(g, at) => PolicyOnRow(s, g, at, p, id);
  }

  // ----- nothing is forgotten -----------------------------------------------------

  /** Still there, first seen at the same time. */
  predicate Survives(was: Option<Row>, row: Option<Row>) {
    was.Some? ==> row.Some? && row.value.firstSeen == was.value.firstSeen
  }

  lemma NextSurvives(s: Store, step: Step, p: string, id: string)
    ensures Survives(RowAt(s, p, id), NextRow(s, step, p, id))
  {
  }

  lemma RowSurvivesStep(s: Store, step: Step, p: string, id: string)
    requires Admits(s, step)
    ensures Survives(RowAt(s, p, id), RowAt(Next(s, step), p, id))
  {
    StepOnRow(s, step, p, id);
    NextSurvives(s, step, p, id);
  }

  lemma RunAppends(start: Store, steps: seq<Step>, step: Step)
    requires IsRun(start, steps + [step])
    ensures IsRun(start, steps) && Admits(After(start, steps), step)
    ensures After(start, steps + [step]) == Next(After(start, steps), step)
  {
    assert (steps + [step])[..|steps|] == steps;
  }

  lemma LastStep(start: Store, steps: seq<Step>, more: seq<Step>)
    requires more != [] && IsRun(start, steps + more)
    ensures var front := steps + more[..|more| - 1];
            && IsRun(start, front) && Admits(After(start, front), more[|more| - 1])
            && After(start, steps + more) == Next(After(start, front), more[|more| - 1])
  {
    assert steps + more == (steps + more[..|more| - 1]) + [more[|more| - 1]];
    RunAppends(start, steps + more[..|more| - 1], more[|more| - 1]);
  }

  /** No row is ever deleted, and the time it was first seen never moves. */
  lemma {:induction false} RowsSurvive(start: Store, steps: seq<Step>, more: seq<Step>, p: string, id: string)
    requires IsRun(start, steps + more)
    ensures Survives(RowAt(After(start, steps), p, id), RowAt(After(start, steps + more), p, id))
  {
    if more == [] {
      assert steps + more == steps;
    } else {
      LastStep(start, steps, more);
      RowsSurvive(start, steps, more[..|more| - 1], p, id);
      RowSurvivesStep(After(start, steps + more[..|more| - 1]), more[|more| - 1], p, id);
    }
  }

  /** The run's own record is appended; unless it was applied, that is all that changed. */
  predicate OnlyRecorded(s: Store, after: Store) {
    && |after.runs| == |s.runs| + 1 && after.runs[..|s.runs|] == s.runs
    && (after.runs[|s.runs|].outcome != Ok ==>
      after.tables == s.tables && after.ledger == s.ledger && after.jobs == s.jobs)
  }

  lemma RecordAppended(s: Store, after: Store, run: Run)
    requires after.runs == s.runs + [run]
    requires run.outcome != Ok ==> after.tables == s.tables && after.ledger == s.ledger && after.jobs == s.jobs
    ensures OnlyRecorded(s, after) && after.runs[|s.runs|] == run
  {
  }

  lemma AppliedIsRecorded(s: Store, t: Table, roster: seq<string>, x: SyncInput)
    ensures OnlyRecorded(s, Applied(s, t, roster, x)) && Applied(s, t, roster, x).runs[|s.runs|].outcome == Ok
  {
    var after := Applied(s, t, roster, x);
    RecordAppended(s, after, after.runs[|after.runs| - 1]);
  }

  /** A run that is not applied leaves rows, ledger and jobs as they were, and is itself recorded. */
  lemma RefusedRunsTouchNothing(s: Store, x: SyncInput)
    ensures OnlyRecorded(s, Synced(s, x))
    ensures Synced(s, x).runs[|s.runs|].outcome == Failed <==> RosterOf(x.fetch).None?
  {
    if RosterOf(x.fetch).Some? {
      SyncedByGate(s, x, RosterOf(x.fetch).value);
      AppliedIsRecorded(s, TableOf(s.tables, x.provider), RosterOf(x.fetch).value, x);
    }
  }
}
