/**
 catalog/sync/pipeline.ts: every provider is synced, then every publish policy
 is applied. Running that pass again on the same upstream answers should be
 silent: no event, and no row's status, exclusion or feed baseline moves. It is
 so under exactly the conditions found here.
 */
module PipelineIdempotence {
  import opened CatalogTypes
  import opened SyncEngine
  import opened PublishPolicy
  import opened CatalogLedger
  import opened CatalogRuns
  import opened RosterBounds
  import opened Wrappers

  datatype Pass = Pass(syncs: seq<SyncInput>, governed: seq<Governed>, at: Time)

  function SyncAll(s: Store, xs: seq<SyncInput>): Store {
    if xs == [] then s else Synced(SyncAll(s, xs[..|xs| - 1]), xs[|xs| - 1])
  }

  function AfterPass(s: Store, a: Pass): Store {
    PolicyAll(SyncAll(s, a.syncs), a.governed, a.at)
  }

  ghost predicate OneSyncEach(xs: seq<SyncInput>) {
    forall i, j | 0 <= i < j < |xs| :: xs[i].provider != xs[j].provider
  }

  /** One adapter per provider, and every query listed the live rows it found. */
  ghost predicate AdmitsPass(s: Store, a: Pass) {
    && |a.syncs| == |a.governed|
    && OneSyncEach(a.syncs)
    && (forall i | 0 <= i < |a.syncs| ::
          && a.governed[i].adapter.provider == a.syncs[i].provider
          && a.governed[i].specs == a.syncs[i].specs
          && Enumerates(a.syncs[i].scan, LiveIds(TableOf(s.tables, a.syncs[i].provider)))
          && Enumerates(a.governed[i].scan, LiveIds(TableOf(SyncAll(s, a.syncs).tables, a.syncs[i].provider))))
  }

  /** The same upstream answers and the same configuration; clocks and row orders may differ. */
  ghost predicate SameAnswers(a: Pass, b: Pass) {
    && |a.syncs| == |b.syncs| && |a.governed| == |b.governed|
    && (forall i | 0 <= i < |a.syncs| :: SameSync(a.syncs[i], b.syncs[i]))
    && (forall i | 0 <= i < |a.governed| ::
          a.governed[i].adapter == b.governed[i].adapter && a.governed[i].specs == b.governed[i].specs)
  }

  predicate SameSync(x: SyncInput, y: SyncInput) {
    x.provider == y.provider && x.fetch == y.fetch && x.specs == y.specs && x.options == y.options
  }

  predicate NoneMissing(t: Table) { forall id | id in t :: t[id].status != Missing }

  // ----- one provider's table ------------------------------------------------------

  function SyncedT(t: Table, x: SyncInput): Table {
    match Judge(t, x.fetch, x.options)
    case Apply(roster) => SyncedTable(t, roster, x)
    case _ => t
  }

  function SyncedE(t: Table, x: SyncInput): seq<Event> {
    match Judge(t, x.fetch, x.options)
    case Apply(roster) => SyncEvents(t, roster, x)
    case _ => []
  }

  predicate SamePublished(t: Table, u: Table) {
    t.Keys == u.Keys && forall id | id in t ::
      t[id].status == u[id].status && t[id].exclusion == u[id].exclusion && t[id].feed == u[id].feed
  }

  lemma {:induction false} NothingMoved(spec: Spec, fields: seq<Field>)
    requires Readable(FeedSnapshot(Some(spec)))
    ensures DifferencesIn(FeedSnapshot(Some(spec)), spec, fields) == []
  {
    if fields != [] {
      NothingMoved(spec, fields[..|fields| - 1]);
      SnapshotReads(Some(spec), fields[|fields| - 1]);
    }
  }

  lemma QuietModel(p: string, t: Table, id: string, specs: Specs, at: Time)
    requires id in t && t[id].status != Retired && t[id].status != Missing
    requires t[id].feed == FeedSnapshot(SpecOf(specs, id))
    ensures ModelEvents(p, t, id, specs, at) == []
  {
    SnapshotReads(SpecOf(specs, id), Tools);
    if id in specs { NothingMoved(specs[id], TRACKED); }
  }

  lemma {:induction false} QuietPolicy(g: Governed, t: Table, scan: seq<string>, at: Time)
    requires forall id | id in t :: PolicyEvent(g.adapter, g.specs, id, t[id], at) == []
    ensures PolicyEvents(g, t, scan, at) == []
  {
    if scan != [] {
      QuietPolicy(g, t, scan[..|scan| - 1], at);
    }
  }

  // ----- a row the policy has judged, judged again --------------------------------------

  /** `r` was judged while not missing; the engine may since have set it active again. */
  lemma JudgedAgain(a: Adapter, specs: Specs, id: string, r: Row, again: Row, at: Time)
    requires r.status != Missing && r.status != Retired
    requires again.exclusion == PolicyRow(a, specs, id, r).exclusion
    requires again.status == Active || again.status == PolicyRow(a, specs, id, r).status
    ensures PolicyEvent(a, specs, id, again, at) == []
    ensures PolicyRow(a, specs, id, again).exclusion == again.exclusion
    ensures again.status == PolicyRow(a, specs, id, r).status || r.status == Active
            ==> PolicyRow(a, specs, id, again).status == PolicyRow(a, specs, id, r).status
    ensures PolicyRow(a, specs, id, again).feed == again.feed
  {
  }

  // ----- with missing rows: exactly when the policy settles in one application ----------------

  /** A free-only adapter withholds this row only because it is missing, so its next verdict differs. */
  predicate WithheldAsMissing(a: Adapter, id: string, r: Row) {
    r.status == Missing && a.freeOnly && id !in a.exclusions
  }

  lemma RowSettles(a: Adapter, specs: Specs, id: string, r: Row, at: Time)
    ensures PolicyEvent(a, specs, id, PolicyRow(a, specs, id, r), at) == [] <==> !WithheldAsMissing(a, id, r)
  {
    if id in a.exclusions {
      assert a.exclusions[id] in a.exclusions.Values;
    }
  }

  lemma {:induction false} EventOfRow(g: Governed, t: Table, scan: seq<string>, at: Time, id: string)
    requires id in scan && id in t && PolicyEvent(g.adapter, g.specs, id, t[id], at) != []
    ensures PolicyEvents(g, t, scan, at) != []
  {
    var front, last := scan[..|scan| - 1], scan[|scan| - 1];
    assert scan == front + [last];
    if last != id {
      EventOfRow(g, t, front, at, id);
    }
  }

  /** Applying one policy twice in a row is silent the second time iff no row was withheld only for being missing. */
  lemma PolicySettlesExactly(g: Governed, t: Table, at: Time)
    requires Enumerates(g.scan, LiveIds(t))
    ensures PolicyEvents(g, PolicyTable(g.adapter, g.specs, t), g.scan, at) == [] <==>
            forall id | id in t :: !WithheldAsMissing(g.adapter, id, t[id])
  {
    var u := PolicyTable(g.adapter, g.specs, t);
    forall id | id in t
      ensures PolicyEvent(g.adapter, g.specs, id, u[id], at) == [] <==> !WithheldAsMissing(g.adapter, id, t[id])
    {
      RowSettles(g.adapter, g.specs, id, t[id], at);
    }
    if id :| id in t && WithheldAsMissing(g.adapter, id, t[id]) {
      assert id in LiveIds(t) && id in Elems(g.scan);
      EventOfRow(g, u, g.scan, at, id);
    } else {
      QuietPolicy(g, u, g.scan, at);
    }
  }

  // ----- one provider, twice ---------------------------------------------------------------

  /** The policy says nothing of a missing row: it neither withholds it nor lifts an exclusion of its own. */
  predicate LeavesMissing(a: Adapter, id: string, r: Row) {
    && !a.freeOnly && id !in a.exclusions
    && !(r.exclusion.Some? && r.exclusion.value in OwnedReasons(a))
  }

  /**
   One pass settles an absent row if it retires it, or if neither it nor the
   next pass retires it and the policy leaves it missing.
   */
  predicate AbsentSettles(r: Row, o: Options, a: Adapter, id: string) {
    || r.missCount + 1 >= o.retireAfterMisses
    || (r.missCount + 2 < o.retireAfterMisses && LeavesMissing(a, id, r))
  }

  predicate RosterRowSettles(r0: Option<Row>, listed: bool, x: SyncInput, a: Adapter, id: string) {
    !listed && IsLive(r0) ==> AbsentSettles(r0.value, x.options, a, id)
  }

  /** One row through engine, policy, engine, policy, under the same applied roster. */
  predicate RowAtRest(r0: Option<Row>, listed: bool, x: SyncInput, y: SyncInput,
    g: Governed, h: Governed, id: string, at: Time)
    requires listed || r0.Some?
  {
    var r2 := PolicyRow(g.adapter, g.specs, id, RowUnder(r0, listed, x, id).value);
    var r3 := RowUnder(Some(r2), listed, y, id).value;
    var r4 := PolicyRow(h.adapter, h.specs, id, r3);
    && EventsUnder(Some(r2), listed, y, id) == []
    && PolicyEvent(h.adapter, h.specs, id, r3, at) == []
    && r4.status == r2.status && r4.exclusion == r2.exclusion && r4.feed == r2.feed
  }

  lemma ListedRowRests(r0: Option<Row>, x: SyncInput, y: SyncInput, g: Governed, h: Governed, id: string, at: Time)
    requires SameSync(x, y) && g.adapter == h.adapter && g.specs == h.specs
    ensures RowAtRest(r0, true, x, y, g, h, id, at)
  {
    var r1 := RowUnder(r0, true, x, id).value;
    var r2 := PolicyRow(g.adapter, g.specs, id, r1);
    JudgedAgain(g.adapter, g.specs, id, r1, RowUnder(Some(r2), true, y, id).value, at);
    QuietModel(y.provider, map[id := r2], id, y.specs, y.at);
    assert Before(map[id := r2], id) == Live(Some(r2));
  }

  lemma UnlistedRowRests(r0: Row, x: SyncInput, y: SyncInput, g: Governed, h: Governed, id: string, at: Time)
    requires SameSync(x, y) && g.adapter == h.adapter && g.specs == h.specs
    ensures RosterRowSettles(Some(r0), false, x, g.adapter, id) ==> RowAtRest(Some(r0), false, x, y, g, h, id, at)
    ensures var r2 := PolicyRow(g.adapter, g.specs, id, RowUnder(Some(r0), false, x, id).value);
            !RosterRowSettles(Some(r0), false, x, g.adapter, id) ==> EventsUnder(Some(r2), false, y, id) != []
  {
  }

  lemma SomebodyHears(es: seq<Event>)
    requires es != []
    ensures About(es, es[|es| - 1].provider, es[|es| - 1].model) != []
  {
  }

  /** An applied roster is silent exactly when it tells no row anything. */
  lemma SilentExactly(t: Table, roster: seq<string>, y: SyncInput)
    requires Distinct(roster) && Enumerates(y.scan, LiveIds(t))
    ensures SyncEvents(t, roster, y) == [] <==> forall id :: EventsUnder(Held(t, id), id in roster, y, id) == []
  {
    var es := SyncEvents(t, roster, y);
    forall id ensures About(es, y.provider, id) == EventsUnder(Held(t, id), id in roster, y, id) {
      AppliedEvents(t, roster, y, id);
    }
    if forall id :: EventsUnder(Held(t, id), id in roster, y, id) == [] {
      forall p, id ensures About(es, p, id) == [] {
        if p != y.provider { ForeignEvents(t, roster, y, p, id); }
      }
      if es != [] { SomebodyHears(es); }
    } else {
      var id :| EventsUnder(Held(t, id), id in roster, y, id) != [];
      assert About(es, y.provider, id) != [];
    }
  }

  lemma Nonnegative(a: real, b: real)
    requires a >= 0.0 && b >= 0.0
    ensures a * b >= 0.0
  {
  }

  lemma RatioScales(ratio: real, absent: real, live: real, fewer: real, liveNow: real)
    requires 0.0 < fewer <= absent <= live && absent <= ratio * live && liveNow >= live - absent + fewer
    ensures fewer <= ratio * liveNow
  {
    if ratio >= 1.0 {
      Nonnegative(ratio - 1.0, liveNow);
    } else {
      if ratio < 0.0 { Nonnegative(-ratio, live); }
      Nonnegative(ratio, liveNow - (live - absent + fewer));
      Nonnegative(1.0 - ratio, absent - fewer);
    }
  }

  /** Fewer absences among no fewer others do not trip a gate that stayed open. */
  lemma GateStaysOpen(absent: nat, live: nat, fewer: nat, liveNow: nat, o: Options)
    requires !GateTrips(absent, live, o) && fewer <= absent <= live && liveNow >= live - absent + fewer
    ensures !GateTrips(fewer, liveNow, o)
  {
    if fewer > 0 {
      RatioScales(o.maxRemovalRatio, absent as real, live as real, fewer as real, liveNow as real);
    }
  }

  lemma SizesAfterApply(live: set<string>, absent: set<string>, fewer: set<string>, liveNow: set<string>)
    requires fewer <= absent <= live && (live - absent) + fewer <= liveNow
    ensures |fewer| <= |absent| <= |live| && |liveNow| >= |live| - |absent| + |fewer|
  {
    SubsetSize(fewer, absent);
    SubsetSize(absent, live);
    assert (live - absent) !! fewer && |live - absent| == |live| - |absent|;
    SubsetSize((live - absent) + fewer, liveNow);
  }

  /** What is live after engine and policy, of a provider whose roster was applied. */
  lemma LiveAfterApply(t0: Table, roster: seq<string>, x: SyncInput, g: Governed)
    ensures var t2 := PolicyTable(g.adapter, g.specs, SyncedTable(t0, roster, x));
            && AbsentIds(t2, roster) <= AbsentIds(t0, roster) <= LiveIds(t0)
            && (LiveIds(t0) - AbsentIds(t0, roster)) + AbsentIds(t2, roster) <= LiveIds(t2)
  {
    var t2 := PolicyTable(g.adapter, g.specs, SyncedTable(t0, roster, x));
    forall id ensures id in LiveIds(t2) <==> IsLive(RowUnder(Held(t0, id), id in roster, x, id)) {
      AppliedRow(t0, roster, x, id);
    }
  }

  /** After an applied pass the same roster is applied again. */
  lemma AppliedAgain(t0: Table, roster: seq<string>, x: SyncInput, y: SyncInput, g: Governed)
    requires SameSync(x, y) && Judge(t0, x.fetch, x.options) == Apply(roster)
    ensures Judge(PolicyTable(g.adapter, g.specs, SyncedTable(t0, roster, x)), y.fetch, y.options) == Apply(roster)
  {
    var t2 := PolicyTable(g.adapter, g.specs, SyncedTable(t0, roster, x));
    LiveAfterApply(t0, roster, x, g);
    SizesAfterApply(LiveIds(t0), AbsentIds(t0, roster), AbsentIds(t2, roster), LiveIds(t2));
    OpenAgain(t0, t2, roster, x.fetch, x.options);
  }

  lemma OpenAgain(t0: Table, t2: Table, roster: seq<string>, fetch: Fetch, o: Options)
    requires Judge(t0, fetch, o) == Apply(roster)
    requires |AbsentIds(t2, roster)| <= |AbsentIds(t0, roster)| <= |LiveIds(t0)|
    requires |LiveIds(t2)| >= |LiveIds(t0)| - |AbsentIds(t0, roster)| + |AbsentIds(t2, roster)|
    ensures Judge(t2, fetch, o) == Apply(roster)
  {
    var absent, live, fewer, liveNow := |AbsentIds(t0, roster)|, |LiveIds(t0)|, |AbsentIds(t2, roster)|, |LiveIds(t2)|;
    if fewer > 0 { GateStaysOpen(absent, live, fewer, liveNow, o); }
  }

  /** Whether one pass settles a provider; it can be told from the stored rows and the roster. */
  ghost predicate ProviderSettles(t0: Table, x: SyncInput, a: Adapter) {
    match Judge(t0, x.fetch, x.options)
    case Apply(roster) => AbsentAllSettle(t0, roster, x.options, a)
    case _ => forall id | id in t0 :: !WithheldAsMissing(a, id, t0[id])
  }

  /** The second pass over a provider, after the first left the table `t2`. */
  ghost predicate SecondSilent(t2: Table, y: SyncInput, h: Governed, at: Time) {
    SyncedE(t2, y) == [] && PolicyEvents(h, SyncedT(t2, y), h.scan, at) == []
  }

  lemma RestAfterApply(t0: Table, roster: seq<string>, x: SyncInput, y: SyncInput, g: Governed, h: Governed, at: Time)
    requires SameSync(x, y) && g.adapter == h.adapter && g.specs == h.specs
    requires Distinct(roster)
             && Enumerates(y.scan, LiveIds(PolicyTable(g.adapter, g.specs, SyncedTable(t0, roster, x))))
    requires forall id | id in AbsentIds(t0, roster) :: AbsentSettles(t0[id], x.options, g.adapter, id)
    ensures var t2 := PolicyTable(g.adapter, g.specs, SyncedTable(t0, roster, x));
            var t3 := SyncedTable(t2, roster, y);
            && SyncEvents(t2, roster, y) == []
            && PolicyEvents(h, t3, h.scan, at) == []
            && SamePublished(PolicyTable(h.adapter, h.specs, t3), t2)
  {
    var t2 := PolicyTable(g.adapter, g.specs, SyncedTable(t0, roster, x));
    var t3 := SyncedTable(t2, roster, y);
    assert t3.Keys == t2.Keys == t0.Keys + Elems(roster);
    forall id | id in t2
      ensures EventsUnder(Held(t2, id), id in roster, y, id) == []
      ensures PolicyEvent(h.adapter, h.specs, id, t3[id], at) == []
      ensures var r := PolicyRow(h.adapter, h.specs, id, t3[id]);
              r.status == t2[id].status && r.exclusion == t2[id].exclusion && r.feed == t2[id].feed
    {
      AppliedRow(t0, roster, x, id);
      AppliedRow(t2, roster, y, id);
      if id in roster {
        ListedRowRests(Held(t0, id), x, y, g, h, id, at);
      } else {
        UnlistedRowRests(t0[id], x, y, g, h, id, at);
      }
    }
    forall id ensures EventsUnder(Held(t2, id), id in roster, y, id) == [] {
      if id !in t2 { assert id !in Elems(roster); }
    }
    SilentExactly(t2, roster, y);
    QuietPolicy(h, t3, h.scan, at);
  }

  lemma UnrestAfterApply(t0: Table, roster: seq<string>, x: SyncInput, y: SyncInput, g: Governed, id: string)
    requires SameSync(x, y)
    requires Distinct(roster)
             && Enumerates(y.scan, LiveIds(PolicyTable(g.adapter, g.specs, SyncedTable(t0, roster, x))))
    requires id in AbsentIds(t0, roster) && !AbsentSettles(t0[id], x.options, g.adapter, id)
    ensures SyncEvents(PolicyTable(g.adapter, g.specs, SyncedTable(t0, roster, x)), roster, y) != []
  {
    var t2 := PolicyTable(g.adapter, g.specs, SyncedTable(t0, roster, x));
    AppliedRow(t0, roster, x, id);
    UnlistedRowRests(t0[id], x, y, g, g, id, y.at);
    assert EventsUnder(Held(t2, id), id in roster, y, id) != [];
    SilentExactly(t2, roster, y);
  }

  lemma RestAfterRefusal(t0: Table, g: Governed, h: Governed, at: Time)
    requires g.adapter == h.adapter && g.specs == h.specs && Enumerates(h.scan, LiveIds(t0))
    ensures LiveIds(PolicyTable(g.adapter, g.specs, t0)) == LiveIds(t0)
    ensures PolicyEvents(h, PolicyTable(g.adapter, g.specs, t0), h.scan, at) == []
            <==> forall id | id in t0 :: !WithheldAsMissing(g.adapter, id, t0[id])
    ensures (forall id | id in t0 :: !WithheldAsMissing(g.adapter, id, t0[id])) ==>
              var t2 := PolicyTable(g.adapter, g.specs, t0);
              SamePublished(PolicyTable(h.adapter, h.specs, t2), t2)
  {
    var t2 := PolicyTable(g.adapter, g.specs, t0);
    PolicySettlesExactly(g.(scan := h.scan), t0, at);
    SameEvents(g.(scan := h.scan), h, t2, h.scan, at);
    forall id | id in t0 && !WithheldAsMissing(g.adapter, id, t0[id])
      ensures SettledRow(PolicyRow(h.adapter, h.specs, id, t2[id]), t2[id])
    {
      RowKeeps(g.adapter, g.specs, id, t0[id]);
    }
  }

  predicate SettledRow(r: Row, s: Row) { r.status == s.status && r.exclusion == s.exclusion && r.feed == s.feed }

  lemma RowKeeps(a: Adapter, specs: Specs, id: string, r: Row)
    requires !WithheldAsMissing(a, id, r)
    ensures SettledRow(PolicyRow(a, specs, id, PolicyRow(a, specs, id, r)), PolicyRow(a, specs, id, r))
  {
    RowSettles(a, specs, id, r, 0);
  }

  lemma {:induction false} SameEvents(g: Governed, h: Governed, t: Table, scan: seq<string>, at: Time)
    requires g.adapter == h.adapter && g.specs == h.specs
    ensures PolicyEvents(g, t, scan, at) == PolicyEvents(h, t, scan, at)
  {
    if scan != [] { SameEvents(g, h, t, scan[..|scan| - 1], at); }
  }

  /** A roster is read by its entries and by which live rows it leaves out. */
  lemma ReadAlike(t: Table, u: Table, x: SyncInput, y: SyncInput)
    requires SameSync(x, y) && LiveIds(u) == LiveIds(t)
    ensures Judge(u, y.fetch, y.options) == Judge(t, x.fetch, x.options)
  {
    if RosterOf(x.fetch).Some? {
      assert AbsentIds(u, RosterOf(x.fetch).value) == AbsentIds(t, RosterOf(x.fetch).value);
    }
  }

  lemma RosterIsDistinct(t: Table, fetch: Fetch, o: Options)
    requires Judge(t, fetch, o).Apply?
    ensures Distinct(Judge(t, fetch, o).roster)
  {
    DeduplicatedIsTheSetOfNames(fetch.entries);
  }

  ghost predicate AbsentAllSettle(t0: Table, roster: seq<string>, o: Options, a: Adapter) {
    forall id | id in AbsentIds(t0, roster) :: AbsentSettles(t0[id], o, a, id)
  }

  lemma RestExactly(t0: Table, roster: seq<string>, x: SyncInput, y: SyncInput, g: Governed, h: Governed, at: Time)
    requires SameSync(x, y) && g.adapter == h.adapter && g.specs == h.specs
    requires Distinct(roster)
    requires Enumerates(y.scan, LiveIds(PolicyTable(g.adapter, g.specs, SyncedTable(t0, roster, x))))
    ensures var t2 := PolicyTable(g.adapter, g.specs, SyncedTable(t0, roster, x));
            var t3 := SyncedTable(t2, roster, y);
            && (SyncEvents(t2, roster, y) == [] && PolicyEvents(h, t3, h.scan, at) == []
                <==> AbsentAllSettle(t0, roster, x.options, g.adapter))
            && (AbsentAllSettle(t0, roster, x.options, g.adapter) ==>
              SamePublished(PolicyTable(h.adapter, h.specs, t3), t2))
  {
    if AbsentAllSettle(t0, roster, x.options, g.adapter) {
      RestAfterApply(t0, roster, x, y, g, h, at);
    } else {
      var id :| id in AbsentIds(t0, roster) && !AbsentSettles(t0[id], x.options, g.adapter, id);
      UnrestAfterApply(t0, roster, x, y, g, id);
    }
  }

  lemma SyncedAsApplied(t: Table, roster: seq<string>, x: SyncInput)
    requires Judge(t, x.fetch, x.options) == Apply(roster)
    ensures SyncedT(t, x) == SyncedTable(t, roster, x) && SyncedE(t, x) == SyncEvents(t, roster, x)
  {
  }

  lemma AppliedSettlesExactly(t0: Table, roster: seq<string>, x: SyncInput,
    y: SyncInput, g: Governed, h: Governed, at: Time)
    requires SameSync(x, y) && g.adapter == h.adapter && g.specs == h.specs
    requires Judge(t0, x.fetch, x.options) == Apply(roster)
    requires Enumerates(y.scan, LiveIds(PolicyTable(g.adapter, g.specs, SyncedTable(t0, roster, x))))
    ensures var t2 := PolicyTable(g.adapter, g.specs, SyncedTable(t0, roster, x));
            && (SecondSilent(t2, y, h, at) <==> AbsentAllSettle(t0, roster, x.options, g.adapter))
            && (AbsentAllSettle(t0, roster, x.options, g.adapter) ==>
                  SamePublished(PolicyTable(h.adapter, h.specs, SyncedT(t2, y)), t2))
  {
    RosterIsDistinct(t0, x.fetch, x.options);
    AppliedAgain(t0, roster, x, y, g);
    SyncedAsApplied(PolicyTable(g.adapter, g.specs, SyncedTable(t0, roster, x)), roster, y);
    RestExactly(t0, roster, x, y, g, h, at);
  }

  lemma StillRefused(t0: Table, x: SyncInput, y: SyncInput, g: Governed)
    requires SameSync(x, y) && !Judge(t0, x.fetch, x.options).Apply?
    ensures LiveIds(PolicyTable(g.adapter, g.specs, t0)) == LiveIds(t0)
    ensures SyncedT(t0, x) == t0
    ensures var t2 := PolicyTable(g.adapter, g.specs, t0); SyncedT(t2, y) == t2 && SyncedE(t2, y) == []
  {
    var t2 := PolicyTable(g.adapter, g.specs, t0);
    assert LiveIds(t2) == LiveIds(t0);
    ReadAlike(t0, t2, x, y);
  }

  lemma RefusedSettlesExactly(t0: Table, x: SyncInput, y: SyncInput, g: Governed, h: Governed, at: Time)
    requires SameSync(x, y) && g.adapter == h.adapter && g.specs == h.specs
    requires !Judge(t0, x.fetch, x.options).Apply? && Enumerates(h.scan, LiveIds(t0))
    ensures SecondSilent(PolicyTable(g.adapter, g.specs, t0), y, h, at) <==> ProviderSettles(t0, x, g.adapter)
    ensures ProviderSettles(t0, x, g.adapter) ==>
              var t2 := PolicyTable(g.adapter, g.specs, t0);
              SamePublished(PolicyTable(h.adapter, h.specs, t2), t2)
  {
    StillRefused(t0, x, y, g);
    RestAfterRefusal(t0, g, h, at);
  }

  /**
   Whatever the outcome of the first pass over a provider and whatever the
   options, the second is silent exactly when the first settled it, and then it
   changes nothing published.
   */
  lemma ProviderSettlesExactly(t0: Table, x: SyncInput, y: SyncInput, g: Governed, h: Governed, at: Time)
    requires SameSync(x, y) && g.adapter == h.adapter && g.specs == h.specs
    requires Enumerates(y.scan, LiveIds(PolicyTable(g.adapter, g.specs, SyncedT(t0, x))))
    requires Enumerates(h.scan, LiveIds(SyncedT(PolicyTable(g.adapter, g.specs, SyncedT(t0, x)), y)))
    ensures SecondSilent(PolicyTable(g.adapter, g.specs, SyncedT(t0, x)), y, h, at) <==>
            ProviderSettles(t0, x, g.adapter)
    ensures ProviderSettles(t0, x, g.adapter) ==>
              var t2 := PolicyTable(g.adapter, g.specs, SyncedT(t0, x));
              SamePublished(PolicyTable(h.adapter, h.specs, SyncedT(t2, y)), t2)
  {
    var verdict := Judge(t0, x.fetch, x.options);
    if verdict.Apply? {
      SyncedAsApplied(t0, verdict.roster, x);
      AppliedSettlesExactly(t0, verdict.roster, x, y, g, h, at);
    } else {
      StillRefused(t0, x, y, g);
      RefusedSettlesExactly(t0, x, y, g, h, at);
    }
  }

  // ----- from tables to the store ----------------------------------------------------------

  lemma OneSync(s: Store, x: SyncInput, p: string)
    ensures TableOf(Synced(s, x).tables, p) ==
            if p == x.provider then SyncedT(TableOf(s.tables, p), x) else TableOf(s.tables, p)
    ensures Synced(s, x).ledger == s.ledger + SyncedE(TableOf(s.tables, x.provider), x)
  {
    var t := TableOf(s.tables, x.provider);
    match Judge(t, x.fetch, x.options)
    case Apply(roster) => OneApplied(s, t, roster, x, p);
    case _ =>
      assert Synced(s, x).tables == s.tables;
      assert Synced(s, x).ledger == s.ledger + [];
  }

  lemma OneApplied(s: Store, t: Table, roster: seq<string>, x: SyncInput, p: string)
    ensures TableOf(Applied(s, t, roster, x).tables, p) ==
            if p == x.provider then SyncedTable(t, roster, x) else TableOf(s.tables, p)
    ensures Applied(s, t, roster, x).ledger == s.ledger + SyncEvents(t, roster, x)
  {
  }

  lemma {:induction false} SyncAllElsewhere(s: Store, xs: seq<SyncInput>, p: string)
    requires forall i | 0 <= i < |xs| :: xs[i].provider != p
    ensures TableOf(SyncAll(s, xs).tables, p) == TableOf(s.tables, p)
  {
    if xs != [] {
      SyncAllElsewhere(s, xs[..|xs| - 1], p);
      OneSync(SyncAll(s, xs[..|xs| - 1]), xs[|xs| - 1], p);
    }
  }

  lemma {:induction false} SyncAllAt(s: Store, xs: seq<SyncInput>, i: nat)
    requires OneSyncEach(xs) && i < |xs|
    ensures TableOf(SyncAll(s, xs).tables, xs[i].provider) == SyncedT(TableOf(s.tables, xs[i].provider), xs[i])
  {
    var front, last := xs[..|xs| - 1], xs[|xs| - 1];
    OneSync(SyncAll(s, front), last, xs[i].provider);
    if i == |xs| - 1 {
      SyncAllElsewhere(s, front, last.provider);
    } else {
      SyncAllAt(s, front, i);
    }
  }

  predicate SyncSilent(s: Store, x: SyncInput) { SyncedE(TableOf(s.tables, x.provider), x) == [] }

  lemma LastSync(s: Store, front: seq<SyncInput>, last: SyncInput)
    requires forall i | 0 <= i < |front| :: front[i].provider != last.provider
    ensures SyncAll(s, front + [last]).ledger ==
            SyncAll(s, front).ledger + SyncedE(TableOf(s.tables, last.provider), last)
  {
    assert (front + [last])[..|front|] == front;
    SyncAllElsewhere(s, front, last.provider);
    OneSync(SyncAll(s, front), last, last.provider);
  }

  ghost predicate AllSyncsSilent(s: Store, xs: seq<SyncInput>) { forall i | 0 <= i < |xs| :: SyncSilent(s, xs[i]) }

  lemma AllSyncsAppend(s: Store, front: seq<SyncInput>, last: SyncInput)
    ensures AllSyncsSilent(s, front + [last]) <==> AllSyncsSilent(s, front) && SyncSilent(s, last)
  {
    assert forall i | 0 <= i < |front| :: (front + [last])[i] == front[i];
    assert (front + [last])[|front|] == last;
  }

  lemma {:induction false} SyncAllSilent(s: Store, xs: seq<SyncInput>)
    requires OneSyncEach(xs)
    ensures s.ledger <= SyncAll(s, xs).ledger
    ensures SyncAll(s, xs).ledger == s.ledger <==> AllSyncsSilent(s, xs)
  {
    if xs != [] {
      var front, last := xs[..|xs| - 1], xs[|xs| - 1];
      assert xs == front + [last];
      FrontIsOneEach(front, last);
      SyncAllSilent(s, front);
      OneMoreSilent(s, front, last);
    }
  }

  lemma FrontIsOneEach(front: seq<SyncInput>, last: SyncInput)
    requires OneSyncEach(front + [last])
    ensures OneSyncEach(front) && forall i | 0 <= i < |front| :: front[i].provider != last.provider
  {
    assert (front + [last])[|front|] == last && forall i | 0 <= i < |front| :: (front + [last])[i] == front[i];
  }

  lemma OneMoreSilent(s: Store, front: seq<SyncInput>, last: SyncInput)
    requires s.ledger <= SyncAll(s, front).ledger && forall i | 0 <= i < |front| :: front[i].provider != last.provider
    requires SyncAll(s, front).ledger == s.ledger <==> AllSyncsSilent(s, front)
    ensures s.ledger <= SyncAll(s, front + [last]).ledger
    ensures SyncAll(s, front + [last]).ledger == s.ledger <==> AllSyncsSilent(s, front + [last])
  {
    LastSync(s, front, last);
    AllSyncsAppend(s, front, last);
    GrowsByNothing(s.ledger, SyncAll(s, front).ledger, SyncedE(TableOf(s.tables, last.provider), last));
  }

  lemma GrowsByNothing(was: seq<Event>, before: seq<Event>, more: seq<Event>)
    requires was <= before
    ensures was <= before + more && (before + more == was <==> before == was && more == [])
  {
    assert |before + more| == |before| + |more|;
  }

  lemma OnePolicy(s: Store, g: Governed, at: Time, p: string)
    ensures TableOf(PolicyOne(s, g, at).tables, p) ==
            if p == g.adapter.provider
            then PolicyTable(g.adapter, g.specs, TableOf(s.tables, p))
            else TableOf(s.tables, p)
    ensures PolicyOne(s, g, at).ledger == s.ledger + PolicyEvents(g, TableOf(s.tables, g.adapter.provider), g.scan, at)
  {
    if !IsGoverned(g.adapter) {
      UngovernedTable(g, TableOf(s.tables, p), at);
      UngovernedTable(g, TableOf(s.tables, g.adapter.provider), at);
      assert s.ledger + [] == s.ledger;
    }
  }

  lemma UngovernedTable(g: Governed, t: Table, at: Time)
    requires !IsGoverned(g.adapter)
    ensures PolicyTable(g.adapter, g.specs, t) == t && PolicyEvents(g, t, g.scan, at) == []
  {
    forall id | id in t
      ensures PolicyRow(g.adapter, g.specs, id, t[id]) == t[id] && PolicyEvent(g.adapter, g.specs, id, t[id], at) == []
    {
      UngovernedChangesNothing(g, id, t[id], at);
    }
    QuietPolicy(g, t, g.scan, at);
  }

  ghost predicate OnePolicyEach(gs: seq<Governed>) {
    forall i, j | 0 <= i < j < |gs| :: gs[i].adapter.provider != gs[j].adapter.provider
  }

  lemma {:induction false} PolicyAllElsewhere(s: Store, gs: seq<Governed>, at: Time, p: string)
    requires forall i | 0 <= i < |gs| :: gs[i].adapter.provider != p
    ensures TableOf(PolicyAll(s, gs, at).tables, p) == TableOf(s.tables, p)
  {
    if gs != [] {
      PolicyAllElsewhere(s, gs[..|gs| - 1], at, p);
      OnePolicy(PolicyAll(s, gs[..|gs| - 1], at), gs[|gs| - 1], at, p);
    }
  }

  lemma {:induction false} PolicyAllAt(s: Store, gs: seq<Governed>, at: Time, i: nat)
    requires OnePolicyEach(gs) && i < |gs|
    ensures var g := gs[i];
            TableOf(PolicyAll(s, gs, at).tables, g.adapter.provider)
            == PolicyTable(g.adapter, g.specs, TableOf(s.tables, g.adapter.provider))
  {
    var front, last := gs[..|gs| - 1], gs[|gs| - 1];
    OnePolicy(PolicyAll(s, front, at), last, at, gs[i].adapter.provider);
    if i == |gs| - 1 {
      PolicyAllElsewhere(s, front, at, last.adapter.provider);
    } else {
      PolicyAllAt(s, front, at, i);
    }
  }

  predicate PolicySilent(s: Store, g: Governed, at: Time) {
    PolicyEvents(g, TableOf(s.tables, g.adapter.provider), g.scan, at) == []
  }

  ghost predicate AllPoliciesSilent(s: Store, gs: seq<Governed>, at: Time) {
    forall i | 0 <= i < |gs| :: PolicySilent(s, gs[i], at)
  }

  lemma AllPoliciesAppend(s: Store, front: seq<Governed>, last: Governed, at: Time)
    ensures AllPoliciesSilent(s, front + [last], at) <==> AllPoliciesSilent(s, front, at) && PolicySilent(s, last, at)
  {
    assert forall i | 0 <= i < |front| :: (front + [last])[i] == front[i];
    assert (front + [last])[|front|] == last;
  }

  lemma LastPolicy(s: Store, front: seq<Governed>, last: Governed, at: Time)
    requires forall i | 0 <= i < |front| :: front[i].adapter.provider != last.adapter.provider
    ensures PolicyAll(s, front + [last], at).ledger ==
            PolicyAll(s, front, at).ledger
            + PolicyEvents(last, TableOf(s.tables, last.adapter.provider), last.scan, at)
  {
    assert (front + [last])[..|front|] == front;
    PolicyAllElsewhere(s, front, at, last.adapter.provider);
    OnePolicy(PolicyAll(s, front, at), last, at, last.adapter.provider);
  }

  lemma {:induction false} PolicyAllSilent(s: Store, gs: seq<Governed>, at: Time)
    requires OnePolicyEach(gs)
    ensures s.ledger <= PolicyAll(s, gs, at).ledger
    ensures PolicyAll(s, gs, at).ledger == s.ledger <==> AllPoliciesSilent(s, gs, at)
  {
    if gs != [] {
      var front, last := gs[..|gs| - 1], gs[|gs| - 1];
      PolicyAllSilent(s, front, at);
      assert gs == front + [last];
      LastPolicy(s, front, last, at);
      AllPoliciesAppend(s, front, last, at);
      GrowsByNothing(s.ledger, PolicyAll(s, front, at).ledger,
                     PolicyEvents(last, TableOf(s.tables, last.adapter.provider), last.scan, at));
    }
  }

  lemma PassAt(s: Store, a: Pass, i: nat)
    requires AdmitsPass(s, a) && i < |a.syncs|
    ensures var p := a.syncs[i].provider;
            TableOf(AfterPass(s, a).tables, p)
            == PolicyTable(a.governed[i].adapter, a.governed[i].specs, SyncedT(TableOf(s.tables, p), a.syncs[i]))
  {
    SyncAllAt(s, a.syncs, i);
    PolicyAllAt(SyncAll(s, a.syncs), a.governed, a.at, i);
  }

  /** Every provider of the pass is settled by it. */
  ghost predicate PassSettles(s: Store, a: Pass)
    requires |a.syncs| == |a.governed|
  {
    forall i | 0 <= i < |a.syncs| :: SettlesAt(s, a, i)
  }

  ghost predicate SettlesAt(s: Store, a: Pass, i: nat)
    requires i < |a.syncs| == |a.governed|
  {
    ProviderSettles(TableOf(s.tables, a.syncs[i].provider), a.syncs[i], a.governed[i].adapter)
  }

  /** The second pass at the i-th provider: what its sync and its policy add. */
  ghost predicate SilentAt(s2: Store, b: Pass, i: nat)
    requires i < |b.syncs| == |b.governed|
  {
    && SyncedE(TableOf(s2.tables, b.syncs[i].provider), b.syncs[i]) == []
    && PolicyEvents(b.governed[i], TableOf(SyncAll(s2, b.syncs).tables, b.syncs[i].provider),
      b.governed[i].scan, b.at) == []
  }

  lemma SecondPassAt(s: Store, a: Pass, b: Pass, i: nat)
    requires AdmitsPass(s, a) && AdmitsPass(AfterPass(s, a), b) && SameAnswers(a, b) && i < |a.syncs|
    ensures SilentAt(AfterPass(s, a), b, i) <==> SettlesAt(s, a, i)
    ensures SettlesAt(s, a, i) ==>
              SamePublished(TableOf(AfterPass(AfterPass(s, a), b).tables, b.syncs[i].provider),
                            TableOf(AfterPass(s, a).tables, b.syncs[i].provider))
  {
    var s2, x, y := AfterPass(s, a), a.syncs[i], b.syncs[i];
    assert SameSync(x, y);
    PassAt(s, a, i);
    PassAt(s2, b, i);
    SyncAllAt(s2, b.syncs, i);
    ProviderSettlesExactly(TableOf(s.tables, x.provider), x, y, a.governed[i], b.governed[i], b.at);
  }

  lemma PassSilent(s2: Store, b: Pass)
    requires AdmitsPass(s2, b)
    ensures AfterPass(s2, b).ledger == s2.ledger <==> forall i | 0 <= i < |b.syncs| :: SilentAt(s2, b, i)
  {
    var s3 := SyncAll(s2, b.syncs);
    SyncAllSilent(s2, b.syncs);
    PolicyAllSilent(s3, b.governed, b.at);
    assert s2.ledger <= s3.ledger <= AfterPass(s2, b).ledger;
    forall i | 0 <= i < |b.syncs|
      ensures SilentAt(s2, b, i) <==>
              SyncSilent(s2, b.syncs[i]) && PolicySilent(s3, b.governed[i], b.at)
    {
      assert b.governed[i].adapter.provider == b.syncs[i].provider;
    }
  }

  lemma Untouched(s2: Store, b: Pass, p: string)
    requires AdmitsPass(s2, b) && forall i | 0 <= i < |b.syncs| :: b.syncs[i].provider != p
    ensures TableOf(AfterPass(s2, b).tables, p) == TableOf(s2.tables, p)
  {
    SyncAllElsewhere(s2, b.syncs, p);
    PolicyAllElsewhere(SyncAll(s2, b.syncs), b.governed, b.at, p);
  }

  /**
   The second of two passes over the same answers writes no event exactly when
   the first settled every provider, and then every row stays as published.
   */
  lemma SecondPassSilentExactly(s: Store, a: Pass, b: Pass)
    requires AdmitsPass(s, a) && AdmitsPass(AfterPass(s, a), b) && SameAnswers(a, b)
    ensures AfterPass(AfterPass(s, a), b).ledger == AfterPass(s, a).ledger <==> PassSettles(s, a)
    ensures PassSettles(s, a) ==>
              forall p ::
                SamePublished(TableOf(AfterPass(AfterPass(s, a), b).tables, p), TableOf(AfterPass(s, a).tables, p))
  {
    var s2 := AfterPass(s, a);
    PassSilent(s2, b);
    forall i | 0 <= i < |a.syncs|
      ensures SilentAt(s2, b, i) <==> SettlesAt(s, a, i)
      ensures SettlesAt(s, a, i) ==>
                SamePublished(TableOf(AfterPass(s2, b).tables, b.syncs[i].provider),
                  TableOf(s2.tables, b.syncs[i].provider))
    {
      SecondPassAt(s, a, b, i);
    }
    if PassSettles(s, a) {
      forall p ensures SamePublished(TableOf(AfterPass(s2, b).tables, p), TableOf(s2.tables, p)) {
        if i :| 0 <= i < |b.syncs| && b.syncs[i].provider == p {
          assert SettlesAt(s, a, i);
        } else {
          Untouched(s2, b, p);
        }
      }
    }
  }

  /** So it is silent by default options when no row is missing, whatever the outcome of each run. */
  lemma SecondPassIsSilent(s: Store, a: Pass, b: Pass)
    requires AdmitsPass(s, a) && AdmitsPass(AfterPass(s, a), b) && SameAnswers(a, b)
    requires forall i | 0 <= i < |a.syncs| ::
               a.syncs[i].options.retireAfterMisses <= 1 && NoneMissing(TableOf(s.tables, a.syncs[i].provider))
    ensures AfterPass(AfterPass(s, a), b).ledger == AfterPass(s, a).ledger
    ensures forall p ::
              SamePublished(TableOf(AfterPass(AfterPass(s, a), b).tables, p), TableOf(AfterPass(s, a).tables, p))
  {
    forall i | 0 <= i < |a.syncs| ensures SettlesAt(s, a, i) {
      assert NoneMissing(TableOf(s.tables, a.syncs[i].provider));
    }
    SecondPassSilentExactly(s, a, b);
  }

  // ----- a pass that does not settle ---------------------------------------------------------

  /**
   A row of a free-only provider that is left out, but not yet retired, is
   withheld for being missing; whatever else the pass does, the next is not
   silent.
   */
  lemma LeftOutUnsettles(s: Store, a: Pass, again: Pass, i: nat, id: string)
    requires AdmitsPass(s, a) && AdmitsPass(AfterPass(s, a), again) && SameAnswers(a, again) && i < |a.syncs|
    requires IsLeftOut(TableOf(s.tables, a.syncs[i].provider), a.syncs[i], id) && a.governed[i].adapter.freeOnly
    ensures AfterPass(AfterPass(s, a), again).ledger != AfterPass(s, a).ledger
  {
    assert !SettlesAt(s, a, i);
    SecondPassSilentExactly(s, a, again);
  }

  predicate IsLeftOut(t: Table, x: SyncInput, id: string) {
    var verdict := Judge(t, x.fetch, x.options);
    verdict.Apply? && id in AbsentIds(t, verdict.roster) && t[id].missCount + 1 < x.options.retireAfterMisses
  }

  /** Every count passes this gate, and two misses retire. */
  function Listing(p: string, names: seq<string>, scan: seq<string>): SyncInput {
    SyncInput(p, Parsed(seq(|names|, i requires 0 <= i < |names| => Name(names[i]))), map[], scan,
              Options(1.0, |scan|, 2), 0, 0)
  }

  lemma {:induction false} NamesAreTheRoster(names: seq<string>)
    requires Distinct(names)
    ensures Deduplicated(seq(|names|, i requires 0 <= i < |names| => Name(names[i]))) == names
  {
    if names != [] {
      var entries := seq(|names|, i requires 0 <= i < |names| => Name(names[i]));
      var front := names[..|names| - 1];
      NamesAreTheRoster(front);
      assert entries[..|names| - 1] == seq(|front|, i requires 0 <= i < |front| => Name(front[i]));
      assert names[|names| - 1] !in front && names == front + [names[|names| - 1]];
    }
  }

  lemma ListingIsApplied(t: Table, p: string, names: seq<string>, scan: seq<string>)
    requires Distinct(names) && names != [] && (forall id | id in names :: !Blank(id)) && Enumerates(scan, LiveIds(t))
    ensures Judge(t, Listing(p, names, scan).fetch, Listing(p, names, scan).options) == Apply(names)
  {
    NamesAreTheRoster(names);
    EnumerationSize(scan, LiveIds(t));
    SubsetSize(AbsentIds(t, names), LiveIds(t));
  }

  /** A store two names were listed in. */
  function Listed(p: string, names: seq<string>): Store { After(EMPTY_STORE, [Sync(Listing(p, names, []))]) }

  lemma ListedRows(p: string, names: seq<string>)
    requires Distinct(names) && names != [] && forall id | id in names :: !Blank(id)
    ensures IsRun(EMPTY_STORE, [Sync(Listing(p, names, []))])
    ensures var t := TableOf(Listed(p, names).tables, p);
            LiveIds(t) == Elems(names) && forall id | id in LiveIds(t) :: t[id].missCount == 0
  {
    var none, x := TableOf(EMPTY_STORE.tables, p), Listing(p, names, []);
    assert Elems<string>([]) == LiveIds(none) == {};
    ListingIsApplied(none, p, names, []);
    OneStep(x);
    SyncByVerdict(EMPTY_STORE, x, Apply(names));
    var t := TableOf(Listed(p, names).tables, p);
    forall id ensures Held(t, id) == RowUnder(Held(none, id), id in names, x, id) {
      AppliedRow(none, names, x, id);
    }
    forall id ensures id in LiveIds(t) <==> id in names {
      assert id in t <==> Held(t, id).Some?;
    }
  }

  lemma OneStep(x: SyncInput)
    ensures After(EMPTY_STORE, [Sync(x)]) == Synced(EMPTY_STORE, x)
    ensures Admits(EMPTY_STORE, Sync(x)) ==> IsRun(EMPTY_STORE, [Sync(x)])
  {
    assert [Sync(x)][..0] == [];
  }

  /** A row missed for the first time stays live when two misses retire. */
  lemma FirstMissKeepsLive(t: Table, roster: seq<string>, x: SyncInput)
    requires Elems(roster) <= LiveIds(t) && x.options.retireAfterMisses == 2
    requires forall id | id in LiveIds(t) :: t[id].missCount == 0
    ensures LiveIds(SyncedTable(t, roster, x)) == LiveIds(t)
  {
    var u := SyncedTable(t, roster, x);
    forall id ensures id in LiveIds(u) <==> id in LiveIds(t) {
      AppliedRow(t, roster, x, id);
      assert id in u <==> Held(u, id).Some?;
      assert id in roster <==> id in Elems(roster);
    }
  }

  /** One of two stored names is listed, and the provider offers what is free. */
  function UnsettlingPass(p: string, a: string, b: string): Pass {
    Pass([Listing(p, [a], [a, b])], [Governed(Adapter(p, true, map[], None), map[], [a, b])], 0)
  }

  /** A pass over one provider. */
  lemma OneProviderPass(s: Store, x: SyncInput, g: Governed, at: Time)
    requires g.adapter.provider == x.provider && g.specs == x.specs
    requires Enumerates(x.scan, LiveIds(TableOf(s.tables, x.provider)))
    requires Enumerates(g.scan, LiveIds(TableOf(Synced(s, x).tables, x.provider)))
    ensures AdmitsPass(s, Pass([x], [g], at))
  {
    assert [x][..0] == [] && SyncAll(s, [x]) == Synced(s, x);
  }

  lemma AppliedTable(s: Store, x: SyncInput, roster: seq<string>)
    requires Judge(TableOf(s.tables, x.provider), x.fetch, x.options) == Apply(roster)
    ensures TableOf(Synced(s, x).tables, x.provider) == SyncedTable(TableOf(s.tables, x.provider), roster, x)
  {
    SyncByVerdict(s, x, Apply(roster));
  }

  lemma BothStayLive(t: Table, p: string, a: string, b: string)
    requires a != b && LiveIds(t) == {a, b} && forall id | id in {a, b} :: t[id].missCount == 0
    ensures LiveIds(SyncedTable(t, [a], Listing(p, [a], [a, b]))) == {a, b}
  {
    assert Elems([a]) == {a};
    FirstMissKeepsLive(t, [a], Listing(p, [a], [a, b]));
  }

  lemma UnsettlingPassIsAdmitted(s: Store, p: string, a: string, b: string)
    requires a != b && !Blank(a) && !Blank(b) && LiveIds(TableOf(s.tables, p)) == {a, b}
    requires forall id | id in {a, b} :: TableOf(s.tables, p)[id].missCount == 0
    ensures AdmitsPass(s, UnsettlingPass(p, a, b))
    ensures IsLeftOut(TableOf(s.tables, p), Listing(p, [a], [a, b]), b)
  {
    var t, x := TableOf(s.tables, p), Listing(p, [a], [a, b]);
    assert Elems([a, b]) == {a, b};
    ListingIsApplied(t, p, [a], [a, b]);
    BothStayLive(t, p, a, b);
    AppliedTable(s, x, [a]);
    OneProviderPass(s, x, Governed(Adapter(p, true, map[], None), map[], [a, b]), 0);
    LeftOutOfOne(t, p, a, b);
  }

  lemma LeftOutOfOne(t: Table, p: string, a: string, b: string)
    requires a != b && LiveIds(t) == {a, b} && t[b].missCount == 0
    requires Judge(t, Listing(p, [a], [a, b]).fetch, Listing(p, [a], [a, b]).options) == Apply([a])
    ensures IsLeftOut(t, Listing(p, [a], [a, b]), b)
  {
    assert b in AbsentIds(t, [a]);
  }

  /** With two stored rows, neither missed before, no pass over the same answers is silent after this one. */
  lemma TwoRowsUnsettle(s: Store, p: string, a: string, b: string, again: Pass)
    requires a != b && !Blank(a) && !Blank(b) && LiveIds(TableOf(s.tables, p)) == {a, b}
    requires forall id | id in {a, b} :: TableOf(s.tables, p)[id].missCount == 0
    requires AdmitsPass(AfterPass(s, UnsettlingPass(p, a, b)), again) && SameAnswers(UnsettlingPass(p, a, b), again)
    ensures AdmitsPass(s, UnsettlingPass(p, a, b))
    ensures AfterPass(AfterPass(s, UnsettlingPass(p, a, b)), again).ledger
            != AfterPass(s, UnsettlingPass(p, a, b)).ledger
  {
    UnsettlingPassIsAdmitted(s, p, a, b);
    LeftOutUnsettles(s, UnsettlingPass(p, a, b), again, 0, b);
  }

  lemma TwoListed(p: string, a: string, b: string)
    requires a != b && !Blank(a) && !Blank(b)
    ensures IsRun(EMPTY_STORE, [Sync(Listing(p, [a, b], []))])
    ensures var t := TableOf(Listed(p, [a, b]).tables, p);
            LiveIds(t) == {a, b} && forall id | id in {a, b} :: t[id].missCount == 0
  {
    PairOfNames(a, b);
    ListedAre(p, [a, b], {a, b});
  }

  lemma PairOfNames(a: string, b: string)
    requires a != b && !Blank(a) && !Blank(b)
    ensures Distinct([a, b]) && Elems([a, b]) == {a, b} && forall id | id in [a, b] :: !Blank(id)
  {
  }

  lemma ListedAre(p: string, names: seq<string>, ids: set<string>)
    requires Distinct(names) && names != [] && Elems(names) == ids && forall id | id in names :: !Blank(id)
    ensures IsRun(EMPTY_STORE, [Sync(Listing(p, names, []))])
    ensures var t := TableOf(Listed(p, names).tables, p);
            LiveIds(t) == ids && forall id | id in ids :: t[id].missCount == 0
  {
    ListedRows(p, names);
  }

  /** A reachable store, and a pass over it after which no pass over the same answers is silent. */
  lemma APassCanUnsettle(p: string, a: string, b: string, again: Pass)
    requires a != b && !Blank(a) && !Blank(b)
    requires AdmitsPass(AfterPass(Listed(p, [a, b]), UnsettlingPass(p, a, b)), again)
    requires SameAnswers(UnsettlingPass(p, a, b), again)
    ensures IsRun(EMPTY_STORE, [Sync(Listing(p, [a, b], []))]) && AdmitsPass(Listed(p, [a, b]), UnsettlingPass(p, a, b))
    ensures AfterPass(AfterPass(Listed(p, [a, b]), UnsettlingPass(p, a, b)), again).ledger
            != AfterPass(Listed(p, [a, b]), UnsettlingPass(p, a, b)).ledger
  {
    TwoListed(p, a, b);
    TwoRowsUnsettle(Listed(p, [a, b]), p, a, b, again);
  }

  // ----- the default options preserve "no missing row" ---------------------------------------

  lemma MissingStep(s: Store, step: Step, p: string, id: string)
    requires step.Sync? ==> step.x.options.retireAfterMisses <= 1
    requires RowAt(s, p, id).Some? ==> RowAt(s, p, id).value.status != Missing
    ensures NextRow(s, step, p, id).Some? ==> NextRow(s, step, p, id).value.status != Missing
  {
  }

  lemma {:induction false} DefaultsLeaveNoneMissing(start: Store, steps: seq<Step>, p: string)
    requires IsRun(start, steps) && NoneMissing(TableOf(start.tables, p))
    requires forall i | 0 <= i < |steps| :: steps[i].Sync? ==> steps[i].x.options.retireAfterMisses <= 1
    ensures NoneMissing(TableOf(After(start, steps).tables, p))
  {
    if steps != [] {
      var front, step := steps[..|steps| - 1], steps[|steps| - 1];
      DefaultsLeaveNoneMissing(start, front, p);
      var t := TableOf(After(start, steps).tables, p);
      forall id | id in t ensures t[id].status != Missing {
        StepOnRow(After(start, front), step, p, id);
        MissingStep(After(start, front), step, p, id);
      }
    }
  }
}
