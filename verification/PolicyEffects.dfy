/**
 What the publish policy decides, told on the fields of the adapter, the spec
 and the row: who is withheld and why, who is restored, and what is told of it.
 */
module PolicyEffects {
  import opened CatalogLedger
  import opened CatalogRuns
  import opened CatalogTypes
  import opened PublishPolicy
  import opened SyncEngine
  import opened Wrappers

  // ----- the proof of being free -------------------------------------------------------

  predicate OnTheList(a: Adapter, id: string) { a.official != None && id in a.official.value }

  /** The provider's own list names it; or there is no list, and both figures are published as zero. */
  predicate ProvenFree(a: Adapter, specs: Specs, id: string) {
    || OnTheList(a, id)
    || (a.official == None && id in specs && specs[id].costIn == Some(0.0) && specs[id].costOut == Some(0.0))
  }

  predicate CostsMoney(specs: Specs, id: string) {
    && id in specs
    && ((specs[id].costIn != None && specs[id].costIn.value > 0.0)
        || (specs[id].costOut != None && specs[id].costOut.value > 0.0))
  }

  /** A row the provider serves, for free only, and nobody excludes by name. */
  predicate JudgedByPrice(a: Adapter, id: string, r: Row) {
    a.freeOnly && id !in a.exclusions && r.status != Retired && r.status != Missing
  }

  /** It is published exactly when it is proven free, and otherwise withheld for its price or for want of proof. */
  lemma PriceDecides(a: Adapter, specs: Specs, id: string, r: Row)
    requires JudgedByPrice(a, id, r)
    ensures var now := PolicyRow(a, specs, id, r);
            && (now.exclusion !in {Some(Paid), Some(NotProvenFree), Some(NotServed)} <==> ProvenFree(a, specs, id))
            && (now.exclusion == Some(Paid) <==> !OnTheList(a, id) && CostsMoney(specs, id))
            && (now.exclusion == Some(NotProvenFree) <==> !ProvenFree(a, specs, id) && !CostsMoney(specs, id))
            && (!ProvenFree(a, specs, id) ==> now.status == Excluded)
  {
  }

  /** An exclusion by name comes before everything else; a missing row of a free-only provider is not served. */
  lemma NameAndAbsenceDecide(a: Adapter, specs: Specs, id: string, r: Row)
    requires r.status != Retired
    ensures id in a.exclusions ==>
              PolicyRow(a, specs, id, r) == r.(status := Excluded, exclusion := Some(a.exclusions[id]))
    ensures id !in a.exclusions && a.freeOnly && r.status == Missing ==>
              PolicyRow(a, specs, id, r) == r.(status := Excluded, exclusion := Some(NotServed))
  {
  }

  /** Whether the policy has nothing against a row. */
  predicate Unopposed(a: Adapter, specs: Specs, id: string, r: Row) {
    id !in a.exclusions && (a.freeOnly ==> r.status != Missing && ProvenFree(a, specs, id))
  }

  /** A reason this adapter can give, by name or for its price. */
  predicate GivenByPolicy(a: Adapter, why: Exclusion) {
    || (exists id :: id in a.exclusions && a.exclusions[id] == why)
    || (a.freeOnly && why in {Paid, NotProvenFree, NotServed})
  }

  /** A row nothing is held against is restored exactly from a reason the policy can give, and is else left alone. */
  lemma RestoredExactly(a: Adapter, specs: Specs, id: string, r: Row)
    requires r.status != Retired && Unopposed(a, specs, id, r)
    ensures PolicyRow(a, specs, id, r) ==
            if r.exclusion != None && GivenByPolicy(a, r.exclusion.value)
            then r.(status := Active, exclusion := None) else r
  {
    if r.exclusion != None {
      assert r.exclusion.value in a.exclusions.Values <==>
             exists other :: other in a.exclusions && a.exclusions[other] == r.exclusion.value;
    }
  }

  /** And one something is held against is withheld, whatever it was before. */
  lemma WithheldExactly(a: Adapter, specs: Specs, id: string, r: Row)
    requires r.status != Retired && !Unopposed(a, specs, id, r)
    ensures PolicyRow(a, specs, id, r).exclusion != None
    ensures PolicyRow(a, specs, id, r) == r.(status := Excluded, exclusion := PolicyRow(a, specs, id, r).exclusion)
  {
  }

  /** The policy tells exactly the moves of the exclusion reason, with the status the row had. */
  lemma MovesAreTold(a: Adapter, specs: Specs, id: string, r: Row, at: Time)
    ensures var now := PolicyRow(a, specs, id, r);
            PolicyEvent(a, specs, id, r, at) ==
            if now.exclusion == r.exclusion then []
            else if now.exclusion == None then [Event(a.provider, id, Readded(Excluded), at)]
            else [Event(a.provider, id, Withheld(r.status, now.exclusion.value), at)]
  {
  }

  // ----- on the store -------------------------------------------------------------------

  /** What the policy tells about one row: the part of the ledger it added. */
  function ToldByPolicy(s: Store, g: Governed, at: Time, p: string, id: string): seq<Event> {
    NextAppends(s, Policy(g, at));
    About(PolicyOne(s, g, at).ledger[|s.ledger|..], p, id)
  }

  lemma ToldIsNext(s: Store, g: Governed, at: Time, p: string, id: string)
    requires Admits(s, Policy(g, at))
    ensures ToldByPolicy(s, g, at, p, id) == NextEvents(s, Policy(g, at), p, id)
  {
    NextAppends(s, Policy(g, at));
    var ledger := PolicyOne(s, g, at).ledger;
    assert ledger == s.ledger + ledger[|s.ledger|..];
    AboutAppends(s.ledger, ledger[|s.ledger|..], p, id);
    PolicyOnRow(s, g, at, p, id);
    SameRest(About(s.ledger, p, id), ToldByPolicy(s, g, at, p, id), [], NextEvents(s, Policy(g, at), p, id));
  }

  /** Every row of the adapter's provider is judged, told of and stored by these rules, and no other row is touched. */
  lemma RowAfterPolicy(s: Store, g: Governed, at: Time, p: string, id: string)
    requires Admits(s, Policy(g, at))
    ensures var was, now := RowAt(s, p, id), RowAt(PolicyOne(s, g, at), p, id);
            && (p != g.adapter.provider || was == None || was.value.status == Retired ==> now == was)
            && (p == g.adapter.provider && was != None ==>
                  && now == Some(PolicyRow(g.adapter, g.specs, id, was.value))
                  && ToldByPolicy(s, g, at, p, id) == PolicyEvent(g.adapter, g.specs, id, was.value, at))
    ensures p != g.adapter.provider ==> ToldByPolicy(s, g, at, p, id) == []
    ensures PolicyOne(s, g, at).runs == s.runs && PolicyOne(s, g, at).jobs == s.jobs
  {
    PolicyOnRow(s, g, at, p, id);
    ToldIsNext(s, g, at, p, id);
  }

  // ----- the summary --------------------------------------------------------------------

  /** Where a list of events withholds a model for this reason. */
  function WithheldAt(es: seq<Event>, why: Exclusion): set<nat> {
    set i: nat | i < |es| && es[i].kind.Withheld? && es[i].kind.why == why
  }

  function RestoredAt(es: seq<Event>): set<nat> { set i: nat | i < |es| && es[i].kind.Readded? }

  /** The summary counts the events it is made from, reason by reason. */
  lemma {:induction false} SummaryCounts(es: seq<Event>, why: Exclusion)
    ensures |WithheldAt(es, why)| ==
            if why in TallyAll(EMPTY, es).excluded then TallyAll(EMPTY, es).excluded[why] else 0
    ensures TallyAll(EMPTY, es).restored == |RestoredAt(es)|
  {
    if es == [] {
      assert WithheldAt(es, why) == {} && RestoredAt(es) == {};
    } else {
      var front, n := es[..|es| - 1], |es| - 1;
      SummaryCounts(front, why);
      OneMoreWithheld(front, es[n], why);
      OneMoreRestored(front, es[n]);
      assert es == front + [es[n]];
    }
  }

  lemma OneMoreWithheld(es: seq<Event>, e: Event, why: Exclusion)
    ensures |WithheldAt(es + [e], why)| ==
            |WithheldAt(es, why)| + if e.kind.Withheld? && e.kind.why == why then 1 else 0
  {
    var was, now := WithheldAt(es, why), WithheldAt(es + [e], why);
    forall i: nat ensures i in now <==> i in was || (i == |es| && e.kind.Withheld? && e.kind.why == why) {
      if i < |es| { assert (es + [e])[i] == es[i]; }
    }
    assert now == if e.kind.Withheld? && e.kind.why == why then was + {|es|} else was;
  }

  lemma OneMoreRestored(es: seq<Event>, e: Event)
    ensures |RestoredAt(es + [e])| == |RestoredAt(es)| + if e.kind.Readded? then 1 else 0
  {
    var was, now := RestoredAt(es), RestoredAt(es + [e]);
    forall i: nat ensures i in now <==> i in was || (i == |es| && e.kind.Readded?) {
      if i < |es| { assert (es + [e])[i] == es[i]; }
    }
    assert now == if e.kind.Readded? then was + {|es|} else was;
  }
}
