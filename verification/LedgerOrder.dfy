/**
 In which order one step tells of its rows, and answers with them: a sync in the
 order of the roster and then of the query, the policy in the order of the query.
 */
module LedgerOrder {
  import opened CatalogEffects
  import opened CatalogRuns
  import opened CatalogTypes
  import opened PublishPolicy
  import opened SyncEngine
  import opened Wrappers

  // ----- places ---------------------------------------------------------------------------

  /** Where `x` is first, or the length. */
  function FirstAt<T(==)>(s: seq<T>, x: T): nat { if s == [] || s[0] == x then 0 else 1 + FirstAt(s[1..], x) }

  lemma {:induction false} FirstIsNoLater<T>(s: seq<T>, x: T, n: nat)
    requires n < |s| && s[n] == x
    ensures FirstAt(s, x) <= n
  {
    if n > 0 && s[0] != x { FirstIsNoLater(s[1..], x, n - 1); }
  }

  lemma {:induction false} FirstIsNoSooner<T>(s: seq<T>, x: T, n: nat)
    requires n <= |s| && forall j | 0 <= j < n :: s[j] != x
    ensures FirstAt(s, x) >= n
  {
    if n > 0 { FirstIsNoSooner(s[1..], x, n - 1); }
  }

  /** The place of a row: where the roster first lists it, or behind the roster where the query has it. */
  function Place(x: SyncInput, id: string): nat {
    if x.fetch.Parsed? && Name(id) in x.fetch.entries then FirstAt(x.fetch.entries, Name(id))
    else (if x.fetch.Parsed? then |x.fetch.entries| else 0) + FirstAt(x.scan, id)
  }

  ghost predicate InOrder(ids: seq<string>, place: string -> nat) {
    forall i, j | 0 <= i < j < |ids| :: place(ids[i]) <= place(ids[j])
  }

  function ModelsOf(es: seq<Event>): seq<string> { seq(|es|, i requires 0 <= i < |es| => es[i].model) }

  lemma ModelsAppend(a: seq<Event>, b: seq<Event>)
    ensures ModelsOf(a + b) == ModelsOf(a) + ModelsOf(b)
  {
  }

  lemma OrderAppends(a: seq<string>, b: seq<string>, place: string -> nat)
    requires InOrder(a, place) && InOrder(b, place)
    requires forall i, j | 0 <= i < |a| && 0 <= j < |b| :: place(a[i]) <= place(b[j])
    ensures InOrder(a + b, place)
  {
  }

  lemma {:induction false} FilterKeepsOrder(s: seq<string>, keep: set<string>, place: string -> nat)
    requires InOrder(s, place)
    ensures InOrder(Filter(s, keep), place)
    ensures forall x | x in Filter(s, keep) :: x in s
  {
    if s != [] {
      var front, n := s[..|s| - 1], |s| - 1;
      assert forall i | 0 <= i < n :: front[i] == s[i];
      FilterKeepsOrder(front, keep, place);
      forall i | 0 <= i < |Filter(front, keep)| ensures place(Filter(front, keep)[i]) <= place(s[n]) {
        assert Filter(front, keep)[i] in front;
      }
    }
  }

  // ----- a sync ---------------------------------------------------------------------------

  lemma RosterIsInOrder(x: SyncInput)
    requires RosterOf(x.fetch).Some?
    ensures InOrder(RosterOf(x.fetch).value, id => Place(x, id))
    ensures forall id | id in RosterOf(x.fetch).value :: Place(x, id) < |x.fetch.entries|
  {
    var entries, roster := x.fetch.entries, RosterOf(x.fetch).value;
    DeduplicatedIsTheSetOfNames(entries);
    forall id | id in roster ensures Place(x, id) < |entries| { ListedIsPlaced(x, id); }
    forall i, j | 0 <= i < j < |roster| ensures Place(x, roster[i]) <= Place(x, roster[j]) {
      RosterKeepsOrder(entries, i, j);
      ListedLaterIsLater(entries, roster[i], roster[j]);
      assert roster[i] in roster && roster[j] in roster;
    }
  }

  lemma ListedIsPlaced(x: SyncInput, id: string)
    requires x.fetch.Parsed? && Name(id) in x.fetch.entries
    ensures Place(x, id) < |x.fetch.entries|
  {
    var n :| 0 <= n < |x.fetch.entries| && x.fetch.entries[n] == Name(id);
    FirstIsNoLater(x.fetch.entries, Name(id), n);
  }

  lemma ListedLaterIsLater(entries: seq<Entry>, a: string, b: string)
    requires ListedLater(entries, a, b)
    ensures FirstAt(entries, Name(a)) <= FirstAt(entries, Name(b))
  {
    var i :| 0 <= i < |entries| && entries[i] == Name(a) && forall j | 0 <= j <= i :: entries[j] != Name(b);
    FirstIsNoLater(entries, Name(a), i);
    FirstIsNoSooner(entries, Name(b), i);
  }

  lemma ScanIsInOrder(scan: seq<string>)
    requires Distinct(scan)
    ensures InOrder(scan, id => FirstAt(scan, id))
  {
    forall i | 0 <= i < |scan| ensures FirstAt(scan, scan[i]) == i {
      FirstIsNoLater(scan, scan[i], i);
      FirstIsNoSooner(scan, scan[i], i);
    }
  }

  lemma AbsenteesAreInOrder(x: SyncInput, absent: set<string>)
    requires Distinct(x.scan) && x.fetch.Parsed? && forall id | id in absent :: Name(id) !in x.fetch.entries
    ensures InOrder(Filter(x.scan, absent), id => Place(x, id))
    ensures forall id | id in Filter(x.scan, absent) :: Place(x, id) >= |x.fetch.entries|
  {
    var out := Filter(x.scan, absent);
    ScanIsInOrder(x.scan);
    FilterKeepsOrder(x.scan, absent, id => FirstAt(x.scan, id));
    FilterIsKept(x.scan, absent);
    forall i | 0 <= i < |out| ensures Place(x, out[i]) == |x.fetch.entries| + FirstAt(x.scan, out[i]) {
      assert out[i] in out;
    }
    var place := (id: string) => FirstAt(x.scan, id);
    forall i, j | 0 <= i < j < |out| ensures Place(x, out[i]) <= Place(x, out[j]) {
      assert place(out[i]) <= place(out[j]);
    }
  }

  lemma {:induction false} FilterIsKept(s: seq<string>, keep: set<string>)
    ensures forall x | x in Filter(s, keep) :: x in keep
  {
    if s != [] { FilterIsKept(s[..|s| - 1], keep); }
  }

  /** Events told row by row are in the order of the rows. */
  lemma {:induction false} RosterToldInOrder(p: string, t: Table, roster: seq<string>, specs: Specs, at: Time,
                                            place: string -> nat)
    requires InOrder(roster, place)
    ensures InOrder(ModelsOf(RosterEvents(p, t, roster, specs, at)), place)
    ensures forall id | id in ModelsOf(RosterEvents(p, t, roster, specs, at)) :: id in roster
  {
    if roster != [] {
      var front, id := roster[..|roster| - 1], roster[|roster| - 1];
      var before, more := RosterEvents(p, t, front, specs, at), ModelEvents(p, t, id, specs, at);
      RosterToldInOrder(p, t, front, specs, at, place);
      ModelsAppend(before, more);
      OneRowTold(ModelsOf(before), ModelsOf(more), front, id, place);
    }
  }

  lemma OneRowTold(before: seq<string>, more: seq<string>, front: seq<string>, id: string, place: string -> nat)
    requires InOrder(before, place) && (forall m | m in before :: m in front) && InOrder(front + [id], place)
    requires forall i | 0 <= i < |more| :: more[i] == id
    ensures InOrder(before + more, place)
    ensures forall m | m in before + more :: m in front + [id]
  {
    forall i | 0 <= i < |before| ensures place(before[i]) <= place(id) {
      assert before[i] in before;
      var k :| 0 <= k < |front| && front[k] == before[i];
      assert (front + [id])[k] == before[i] && (front + [id])[|front|] == id;
    }
    OrderAppends(before, more, place);
  }

  lemma {:induction false} AbsenteesToldInOrder(p: string, t: Table, absent: seq<string>, o: Options, at: Time,
                                               place: string -> nat)
    requires InOrder(absent, place)
    ensures InOrder(ModelsOf(AbsentEvents(p, t, absent, o, at)), place)
    ensures forall id | id in ModelsOf(AbsentEvents(p, t, absent, o, at)) :: id in absent
  {
    if absent != [] {
      var front, id := absent[..|absent| - 1], absent[|absent| - 1];
      var before := AbsentEvents(p, t, front, o, at);
      var more := if id in t then AbsentEvent(p, id, t[id], o, at) else [];
      AbsenteesToldInOrder(p, t, front, o, at, place);
      ModelsAppend(before, more);
      assert front + [id] == absent;
      OneRowTold(ModelsOf(before), ModelsOf(more), front, id, place);
    }
  }

  /** What one step added to the ledger. */
  function Told(s: Store, after: Store): seq<Event>
    requires |s.ledger| <= |after.ledger|
  {
    after.ledger[|s.ledger|..]
  }

  /** A sync tells of the rows it names as the roster has them, and then of those it leaves out as the query has them. */
  lemma SyncToldInOrder(s: Store, x: SyncInput)
    requires Admits(s, Sync(x)) && IsApplied(s, x)
    ensures |s.ledger| <= |Synced(s, x).ledger|
    ensures InOrder(ModelsOf(Told(s, Synced(s, x))), id => Place(x, id))
  {
    var t := TableOf(s.tables, x.provider);
    AppliedExactly(s, x);
    var roster := Judge(t, x.fetch, x.options).roster;
    SyncByVerdict(s, x, Apply(roster));
    assert Told(s, Synced(s, x)) == SyncEvents(t, roster, x);
    EventsAreInOrder(t, roster, x);
  }

  lemma AbsentIsUnnamed(t: Table, x: SyncInput)
    requires RosterOf(x.fetch).Some?
    ensures forall id | id in AbsentIds(t, RosterOf(x.fetch).value) :: Name(id) !in x.fetch.entries
  {
    DeduplicatedIsTheSetOfNames(x.fetch.entries);
  }

  lemma EventsAreInOrder(t: Table, roster: seq<string>, x: SyncInput)
    requires RosterOf(x.fetch) == Some(roster) && Distinct(x.scan)
    ensures InOrder(ModelsOf(SyncEvents(t, roster, x)), id => Place(x, id))
  {
    var place, absent := (id: string) => Place(x, id), Filter(x.scan, AbsentIds(t, roster));
    var arrivals := RosterEvents(x.provider, t, roster, x.specs, x.at);
    var departures := AbsentEvents(x.provider, t, absent, x.options, x.at);
    RosterIsInOrder(x);
    AbsentIsUnnamed(t, x);
    AbsenteesAreInOrder(x, AbsentIds(t, roster));
    RosterToldInOrder(x.provider, t, roster, x.specs, x.at, place);
    AbsenteesToldInOrder(x.provider, t, absent, x.options, x.at, place);
    ModelsAppend(arrivals, departures);
    forall i, j | 0 <= i < |ModelsOf(arrivals)| && 0 <= j < |ModelsOf(departures)|
      ensures place(ModelsOf(arrivals)[i]) <= place(ModelsOf(departures)[j])
    {
      assert ModelsOf(arrivals)[i] in ModelsOf(arrivals) && ModelsOf(departures)[j] in ModelsOf(departures);
    }
    OrderAppends(ModelsOf(arrivals), ModelsOf(departures), place);
  }

  /**
   What an applied run answers, on what it was given: as added each named id
   that had no row or a retired one, and as removed each live row whose misses
   have come up to the threshold, once and in the same order.
   */
  lemma AnswerExactly(t: Table, x: SyncInput, r: RunResult)
    requires Answers(t, x, r) && Enumerates(x.scan, Unretired(t))
    ensures Distinct(r.added) && Distinct(r.removed)
    ensures forall id :: id in r.added <==> id in Names(x.fetch) && id !in Unretired(t)
    ensures forall id :: id in r.removed <==>
              id in Unretired(t) && id !in Names(x.fetch) && t[id].missCount + 1 >= x.options.retireAfterMisses
    ensures InOrder(r.added, id => Place(x, id)) && InOrder(r.removed, id => Place(x, id))
  {
    var roster, place := RosterOf(x.fetch).value, (id: string) => Place(x, id);
    assert Unretired(t) == LiveIds(t);
    AcceptedExactly(x.fetch);
    RosterIsInOrder(x);
    AbsentIsUnnamed(t, x);
    AbsenteesAreInOrder(x, AbsentIds(t, roster));
    FilterKeepsOrder(roster, Elems(roster) - LiveIds(t), place);
    AddedExactly(t, x.fetch);
    RemovedExactly(t, x, roster);
    FilterKeepsOrder(Filter(x.scan, AbsentIds(t, roster)), Retiring(t, AbsentIds(t, roster), x.options), place);
  }

  lemma AddedExactly(t: Table, fetch: Fetch)
    requires RosterOf(fetch).Some?
    ensures var added := Filter(RosterOf(fetch).value, Elems(RosterOf(fetch).value) - LiveIds(t));
            Distinct(added) && forall id :: id in added <==> id in Names(fetch) && id !in LiveIds(t)
  {
    var roster := RosterOf(fetch).value;
    AcceptedExactly(fetch);
    DeduplicatedIsTheSetOfNames(fetch.entries);
    FilterEnumerates(roster, Elems(roster) - LiveIds(t));
    MembersOf(Filter(roster, Elems(roster) - LiveIds(t)));
  }

  lemma MembersOf(s: seq<string>)
    ensures forall id :: id in s <==> id in Elems(s)
  {
  }

  lemma RemovedExactly(t: Table, x: SyncInput, roster: seq<string>)
    requires Enumerates(x.scan, LiveIds(t)) && RosterOf(x.fetch) == Some(roster)
    ensures var removed := Filter(Filter(x.scan, AbsentIds(t, roster)), Retiring(t, AbsentIds(t, roster), x.options));
            && Distinct(removed)
            && forall id :: id in removed <==>
                 id in LiveIds(t) && id !in Names(x.fetch) && t[id].missCount + 1 >= x.options.retireAfterMisses
  {
    var absent := Filter(x.scan, AbsentIds(t, roster));
    var retiring := Retiring(t, AbsentIds(t, roster), x.options);
    AcceptedExactly(x.fetch);
    AbsentIsCounted(t, roster, x);
    FilterEnumerates(absent, retiring);
    MembersOf(Filter(absent, retiring));
    assert Elems(absent) * retiring == retiring;
  }

  // ----- the policy -----------------------------------------------------------------------

  lemma {:induction false} VerdictsToldInOrder(g: Governed, t: Table, scan: seq<string>, at: Time, place: string -> nat)
    requires InOrder(scan, place)
    ensures InOrder(ModelsOf(PolicyEvents(g, t, scan, at)), place)
    ensures forall id | id in ModelsOf(PolicyEvents(g, t, scan, at)) :: id in scan
  {
    if scan != [] {
      var front, id := scan[..|scan| - 1], scan[|scan| - 1];
      var before := PolicyEvents(g, t, front, at);
      var more := if id in t then PolicyEvent(g.adapter, g.specs, id, t[id], at) else [];
      VerdictsToldInOrder(g, t, front, at, place);
      ModelsAppend(before, more);
      assert front + [id] == scan;
      OneRowTold(ModelsOf(before), ModelsOf(more), front, id, place);
    }
  }

  /** The policy tells of one provider's rows in the order of the query. */
  lemma PolicyToldInOrder(s: Store, g: Governed, at: Time)
    requires Admits(s, Policy(g, at))
    ensures |s.ledger| <= |PolicyOne(s, g, at).ledger|
    ensures InOrder(ModelsOf(Told(s, PolicyOne(s, g, at))), id => FirstAt(g.scan, id))
  {
    var t := TableOf(s.tables, g.adapter.provider);
    ScanIsInOrder(g.scan);
    VerdictsToldInOrder(g, t, g.scan, at, id => FirstAt(g.scan, id));
    if IsGoverned(g.adapter) {
      assert Told(s, PolicyOne(s, g, at)) == PolicyEvents(g, t, g.scan, at);
    }
  }

  /** Adapters are governed one after another, each on what the ones before it left. */
  lemma AdapterByAdapter(s: Store, gs: seq<Governed>, g: Governed, at: Time)
    ensures PolicyAll(s, gs + [g], at) == PolicyOne(PolicyAll(s, gs, at), g, at)
    ensures PolicyAll(s, [], at) == s
  {
    assert (gs + [g])[..|gs|] == gs;
  }
}
