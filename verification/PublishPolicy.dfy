/**
 catalog/sync/publish-policy.ts: which stored rows the catalog publishes. It
 runs after the engine, on the same rows, and shares only `exclusion` with it.
 */
module PublishPolicy {
  import opened CatalogTypes
  import opened SyncEngine
  import opened Wrappers

  datatype Adapter = Adapter(
    provider: string,
    freeOnly: bool,
    exclusions: map<string, Exclusion>,
    official: Option<set<string>>)

  /** `scan` is the order in which the database returned the provider's live rows. */
  datatype Governed = Governed(adapter: Adapter, specs: Specs, scan: seq<string>)

  // ----- the verdict on one row ----------------------------------------------

  /** `listed` is three-valued: on the provider's own free list, off it, or no list. */
  function Classify(spec: Option<Spec>, listed: Option<bool>): Option<Exclusion> {
    if listed == Some(true) then None
    else if spec.None? then Some(NotProvenFree)
    else
      var ci, co := spec.value.costIn, spec.value.costOut;
      if ci == Some(0.0) && co == Some(0.0) && listed.None? then None
      else if (ci.Some? && ci.value > 0.0) || (co.Some? && co.value > 0.0) then Some(Paid)
      else Some(NotProvenFree)
  }

  function Listed(a: Adapter, id: string): Option<bool> {
    if a.official.None? then None else Some(id in a.official.value)
  }

  function VerdictOn(a: Adapter, specs: Specs, id: string, status: Status): Option<Exclusion> {
    if id in a.exclusions then Some(a.exclusions[id])
    else if !a.freeOnly then None
    else if status == Missing then Some(NotServed)
    else Classify(SpecOf(specs, id), Listed(a, id))
  }

  /** The reasons this adapter's policy may give, and so may lift. */
  function OwnedReasons(a: Adapter): set<Exclusion> {
    a.exclusions.Values + if a.freeOnly then {Paid, NotProvenFree, NotServed} else {}
  }

  function PolicyRow(a: Adapter, specs: Specs, id: string, r: Row): Row {
    var verdict := VerdictOn(a, specs, id, r.status);
    if r.status == Retired then r
    else if verdict.Some? then r.(status := Excluded, exclusion := verdict)
    else if r.exclusion.Some? && r.exclusion.value in OwnedReasons(a) then r.(status := Active, exclusion := None)
    else r
  }

  function PolicyEvent(a: Adapter, specs: Specs, id: string, r: Row, at: Time): seq<Event> {
    var verdict := VerdictOn(a, specs, id, r.status);
    if r.status == Retired then []
    else if verdict.Some? then
      if r.exclusion != verdict then [Event(a.provider, id, Withheld(r.status, verdict.value), at)] else []
    else if r.exclusion.Some? && r.exclusion.value in OwnedReasons(a) then
      [Event(a.provider, id, Readded(Excluded), at)]
    else []
  }

  // ----- one table, and the whole step ----------------------------------------

  function PolicyTable(a: Adapter, specs: Specs, t: Table): Table {
    map id | id in t :: PolicyRow(a, specs, id, t[id])
  }

  function PolicyEvents(g: Governed, t: Table, scan: seq<string>, at: Time): seq<Event> {
    if scan == [] then []
    else
      var id := scan[|scan| - 1];
      PolicyEvents(g, t, scan[..|scan| - 1], at) +
      (if id in t then PolicyEvent(g.adapter, g.specs, id, t[id], at) else [])
  }

  /** An adapter without a free-only policy or exclusions is not looked at. */
  predicate IsGoverned(a: Adapter) {
    a.freeOnly || a.exclusions != map[]
  }

  function PolicyOne(s: Store, g: Governed, at: Time): Store {
    var p := g.adapter.provider;
    if !IsGoverned(g.adapter) then s
    else
      var t := TableOf(s.tables, p);
      s.(tables := if p in s.tables then s.tables[p := PolicyTable(g.adapter, g.specs, t)] else s.tables,
         ledger := s.ledger + PolicyEvents(g, t, g.scan, at))
  }

  function PolicyAll(s: Store, gs: seq<Governed>, at: Time): Store {
    if gs == [] then s else PolicyOne(PolicyAll(s, gs[..|gs| - 1], at), gs[|gs| - 1], at)
  }

  // ----- the summary ------------------------------------------------------------

  datatype Summary = Summary(excluded: map<Exclusion, nat>, restored: nat)

  const EMPTY := Summary(map[], 0)

  function Count(s: Summary, why: Exclusion): nat { if why in s.excluded then s.excluded[why] else 0 }

  function Tally(s: Summary, e: Event): Summary {
    match e.kind
    case Withheld(_, why) => s.(excluded := s.excluded[why := Count(s, why) + 1])
    case Readded(_) => s.(restored := s.restored + 1)
    case _ => s
  }

  function TallyAll(s: Summary, es: seq<Event>): Summary {
    if es == [] then s else Tally(TallyAll(s, es[..|es| - 1]), es[|es| - 1])
  }

  lemma {:induction false} TallyAppends(s: Summary, es: seq<Event>, fs: seq<Event>)
    ensures TallyAll(s, es + fs) == TallyAll(TallyAll(s, es), fs)
  {
    if fs == [] {
      assert es + fs == es;
    } else {
      assert es + fs == (es + fs[..|fs| - 1]) + [fs[|fs| - 1]];
      assert (es + fs)[..|es + fs| - 1] == es + fs[..|fs| - 1];
      TallyAppends(s, es, fs[..|fs| - 1]);
    }
  }

  // ----- the store's own loops ----------------------------------------------------

  /** The walk over one provider's rows; each row is judged as it was read. */
  method GovernTable(g: Governed, stored: Table, at: Time) returns (table: Table, events: seq<Event>, summary: Summary)
    requires Enumerates(g.scan, LiveIds(stored))
    ensures table == PolicyTable(g.adapter, g.specs, stored)
    ensures events == PolicyEvents(g, stored, g.scan, at)
    ensures summary == TallyAll(EMPTY, events)
  {
    table, events, summary := stored, [], EMPTY;
    for i := 0 to |g.scan|
      invariant table.Keys == stored.Keys
      invariant forall id | id in stored ::
                  table[id] ==
                  (if id in Elems(g.scan[..i]) then PolicyRow(g.adapter, g.specs, id, stored[id]) else stored[id])
      invariant events == PolicyEvents(g, stored, g.scan[..i], at)
      invariant summary == TallyAll(EMPTY, events)
    {
      var id := g.scan[i];
      assert id in Elems(g.scan);
      NextOf(g.scan, i);
      ghost var before := events;
      var row, event, counted := GovernRow(g, id, stored[id], at, summary);
      table := table[id := row];
      events := events + event;
      summary := counted;
      TallyAppends(EMPTY, before, event);
    }
    assert g.scan[..|g.scan|] == g.scan;
    assert forall id | id in stored && stored[id].status != Retired :: id in LiveIds(stored);
  }

  method GovernRow(g: Governed, id: string, m: Row, at: Time, summary: Summary)
    returns (row: Row, event: seq<Event>, counted: Summary)
    requires m.status != Retired
    ensures row == PolicyRow(g.adapter, g.specs, id, m)
    ensures event == PolicyEvent(g.adapter, g.specs, id, m, at)
    ensures counted == TallyAll(summary, event)
  {
    row, event, counted := m, [], summary;
    var reason := VerdictOn(g.adapter, g.specs, id, m.status);
    if reason.Some? {
      // Only a change of verdict is news; a re-assertion is silent.
      if m.exclusion != reason {
        row := m.(status := Excluded, exclusion := reason);
        event := [Event(g.adapter.provider, id, Withheld(m.status, reason.value), at)];
        counted := summary.(excluded := summary.excluded[reason.value := Count(summary, reason.value) + 1]);
        assert event[..0] == [];
      } else if m.status != Excluded {
        row := m.(status := Excluded);
      }
    } else if m.exclusion.Some? && m.exclusion.value in OwnedReasons(g.adapter) {
      row := m.(status := Active, exclusion := None);
      event := [Event(g.adapter.provider, id, Readded(Excluded), at)];
      counted := summary.(restored := summary.restored + 1);
      assert event[..0] == [];
    }
  }

  /** Apply every governed adapter's policy to the rows already stored. */
  method ApplyPublishPolicy(db: Catalog, gs: seq<Governed>, at: Time) returns (summary: Summary)
    requires forall g | g in gs :: Enumerates(g.scan, LiveIds(TableOf(db.tables, g.adapter.provider)))
    modifies db
    ensures db.State() == PolicyAll(old(db.State()), gs, at)
    ensures old(db.ledger) <= db.ledger
    ensures summary == TallyAll(EMPTY, db.ledger[|old(db.ledger)|..])
  {
    summary := EMPTY;
    ghost var s0 := db.State();
    for i := 0 to |gs|
      invariant db.State() == PolicyAll(s0, gs[..i], at)
      invariant s0.ledger <= db.ledger
      invariant summary == TallyAll(EMPTY, db.ledger[|s0.ledger|..])
      invariant forall p :: LiveIds(TableOf(db.tables, p)) == LiveIds(TableOf(s0.tables, p))
    {
      var g := gs[i];
      assert g in gs;
      assert gs[..i + 1][..i] == gs[..i];
      PolicyOneKeepsLive(db.State(), g, at);
      summary := Govern(db, g, at, summary, |s0.ledger|);
    }
    assert gs[..|gs|] == gs;
  }

  method Govern(db: Catalog, g: Governed, at: Time, summary: Summary, ghost from: nat) returns (updated: Summary)
    requires Enumerates(g.scan, LiveIds(TableOf(db.tables, g.adapter.provider)))
    requires from <= |db.ledger| && summary == TallyAll(EMPTY, db.ledger[from..])
    modifies db
    ensures db.State() == PolicyOne(old(db.State()), g, at)
    ensures old(db.ledger) <= db.ledger
    ensures updated == TallyAll(EMPTY, db.ledger[from..])
  {
    updated := summary;
    if !IsGoverned(g.adapter) { return; }
    var p := g.adapter.provider;
    var table, events, counted := GovernTable(g, TableOf(db.tables, p), at);
    ghost var tail := db.ledger[from..];
    if p in db.tables {
      db.tables := db.tables[p := table];
    }
    db.ledger := db.ledger + events;
    assert db.ledger[from..] == tail + events;
    TallyAppends(EMPTY, tail, events);
    updated := AddSummaries(summary, counted, events);
  }

  /** Continue a running summary with the counts of the next provider. */
  method AddSummaries(summary: Summary, counted: Summary, ghost events: seq<Event>) returns (sum: Summary)
    requires counted == TallyAll(EMPTY, events)
    ensures sum == TallyAll(summary, events)
  {
    TallyAdds(summary, events);
    sum := Plus(summary, counted);
  }

  function Plus(a: Summary, b: Summary): Summary {
    Summary(
      map why | why in a.excluded.Keys + b.excluded.Keys :: Count(a, why) + Count(b, why),
      a.restored + b.restored)
  }

  lemma PlusOneMore(s: Summary, sum: Summary, e: Event)
    ensures Tally(Plus(s, sum), e) == Plus(s, Tally(sum, e))
  {
    assert Tally(Plus(s, sum), e).excluded == Plus(s, Tally(sum, e)).excluded;
  }

  lemma {:induction false} TallyAdds(s: Summary, es: seq<Event>)
    ensures TallyAll(s, es) == Plus(s, TallyAll(EMPTY, es))
  {
    if es == [] {
      assert Plus(s, EMPTY).excluded == s.excluded;
    } else {
      TallyAdds(s, es[..|es| - 1]);
      PlusOneMore(s, TallyAll(EMPTY, es[..|es| - 1]), es[|es| - 1]);
    }
  }

  /** The policy retires nothing and revives nothing. */
  lemma PolicyOneKeepsLive(s: Store, g: Governed, at: Time)
    ensures forall p :: LiveIds(TableOf(PolicyOne(s, g, at).tables, p)) == LiveIds(TableOf(s.tables, p))
  {
  }
}
