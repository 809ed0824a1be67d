/**
 How much a provider's roster can lose. The removal gate bounds one run; these
 lemmas carry the bound, and the count of consecutive omissions, over any run.
 */
module RosterBounds {
  import opened CatalogTypes
  import opened SyncEngine
  import opened PublishPolicy
  import opened CatalogRuns
  import opened Wrappers

  predicate DefaultGate(o: Options) {
    o.maxRemovalRatio == DEFAULT_OPTIONS.maxRemovalRatio && o.maxRemovalCount == DEFAULT_OPTIONS.maxRemovalCount
  }

  function LiveCount(s: Store, p: string): nat { |LiveIds(TableOf(s.tables, p))| }

  /** The syncs of one provider among some steps. */
  function Syncs(steps: seq<Step>, p: string): nat {
    if steps == [] then 0
    else
      Syncs(steps[..|steps| - 1], p) + SyncsOf(steps[|steps| - 1], p)
  }

  function SyncsOf(step: Step, p: string): nat { if step.Sync? && step.x.provider == p then 1 else 0 }

  predicate IsRemoval(e: Event, p: string) { e.kind.Removed? && e.provider == p }

  function Removals(es: seq<Event>, p: string): nat {
    if es == [] then 0
    else Removals(es[..|es| - 1], p) + if IsRemoval(es[|es| - 1], p) then 1 else 0
  }

  /** 10^k * n and 7^k * n. */
  function Tens(k: nat, n: nat): nat { if k == 0 then n else 10 * Tens(k - 1, n) }

  function Sevens(k: nat, n: nat): nat { if k == 0 then n else 7 * Sevens(k - 1, n) }

  lemma {:induction false} RemovalsAppend(es: seq<Event>, fs: seq<Event>, p: string)
    ensures Removals(es + fs, p) == Removals(es, p) + Removals(fs, p)
  {
    if fs == [] {
      assert es + fs == es;
    } else {
      assert (es + fs)[..|es + fs| - 1] == es + fs[..|fs| - 1];
      RemovalsAppend(es, fs[..|fs| - 1], p);
    }
  }

  lemma {:induction false} NoRemovals(es: seq<Event>, p: string)
    requires forall i | 0 <= i < |es| :: !IsRemoval(es[i], p)
    ensures Removals(es, p) == 0
  {
    if es != [] { NoRemovals(es[..|es| - 1], p); }
  }

  lemma {:induction false} RosterRemovesNothing(q: string, t: Table,
    roster: seq<string>, specs: Specs, at: Time, p: string)
    ensures Removals(RosterEvents(q, t, roster, specs, at), p) == 0
  {
    if roster != [] {
      var front, last := roster[..|roster| - 1], roster[|roster| - 1];
      RosterRemovesNothing(q, t, front, specs, at, p);
      NoRemovals(ModelEvents(q, t, last, specs, at), p);
      RemovalsAppend(RosterEvents(q, t, front, specs, at), ModelEvents(q, t, last, specs, at), p);
    }
  }

  lemma AtMostOneRemoval(q: string, id: string, r: Row, o: Options, at: Time, p: string)
    ensures Removals(AbsentEvent(q, id, r, o, at), p) <= if p == q then 1 else 0
  {
    var es := AbsentEvent(q, id, r, o, at);
    if p == q {
      assert es != [] ==> es[..|es| - 1] == [];
    } else {
      NoRemovals(es, p);
    }
  }

  lemma {:induction false} AbsenceRemovesAtMost(q: string, t: Table,
    absent: seq<string>, o: Options, at: Time, p: string)
    ensures Removals(AbsentEvents(q, t, absent, o, at), p) <= if p == q then |absent| else 0
  {
    if absent != [] {
      var front, last := absent[..|absent| - 1], absent[|absent| - 1];
      AbsenceRemovesAtMost(q, t, front, o, at, p);
      if last in t {
        AtMostOneRemoval(q, last, t[last], o, at, p);
        RemovalsAppend(AbsentEvents(q, t, front, o, at), AbsentEvent(q, last, t[last], o, at), p);
      } else {
        RemovalsAppend(AbsentEvents(q, t, front, o, at), [], p);
      }
    }
  }

  lemma {:induction false} PolicyRemovesNothing(g: Governed, t: Table, scan: seq<string>, at: Time, p: string)
    ensures Removals(PolicyEvents(g, t, scan, at), p) == 0
  {
    if scan != [] {
      var front, last := scan[..|scan| - 1], scan[|scan| - 1];
      PolicyRemovesNothing(g, t, front, at, p);
      var es := if last in t then PolicyEvent(g.adapter, g.specs, last, t[last], at) else [];
      NoRemovals(es, p);
      RemovalsAppend(PolicyEvents(g, t, front, at), es, p);
    }
  }

  /** An applied roster under the default gate leaves out at most five live rows, and at most three in ten. */
  lemma GateBounds(t: Table, fetch: Fetch, o: Options)
    requires DefaultGate(o) && Judge(t, fetch, o).Apply?
    ensures var absent := |AbsentIds(t, Judge(t, fetch, o).roster)|;
            absent <= 5 && 10 * absent <= 3 * |LiveIds(t)|
  {
    var absent := AbsentIds(t, Judge(t, fetch, o).roster);
    assert absent <= LiveIds(t);
    if |LiveIds(t)| == 0 {
      assert absent == {};
    }
  }

  lemma RemainderSize<T>(a: set<T>, b: set<T>, c: set<T>)
    requires b <= a && a - b <= c
    ensures |c| >= |a| - |b|
  {
    assert |a - b| == |a| - |b|;
    SubsetSize(a - b, c);
  }

  lemma {:induction false} SubsetSize<T>(a: set<T>, c: set<T>)
    requires a <= c
    ensures |a| <= |c|
  {
    if a != {} {
      var x :| x in a;
      SubsetSize(a - {x}, c - {x});
    }
  }

  lemma AppliedRemovals(s: Store, t: Table, x: SyncInput, roster: seq<string>, p: string)
    requires t == TableOf(s.tables, x.provider) && Enumerates(x.scan, LiveIds(t))
    requires p == x.provider ==> |AbsentIds(t, roster)| <= 5
    ensures Removals(Applied(s, t, roster, x).ledger, p) <= Removals(s.ledger, p) + if p == x.provider then 5 else 0
  {
    var absent := Filter(x.scan, AbsentIds(t, roster));
    AbsentIsCounted(t, roster, x);
    RosterRemovesNothing(x.provider, t, roster, x.specs, x.at, p);
    AbsenceRemovesAtMost(x.provider, t, absent, x.options, x.at, p);
    RemovalsAppend(RosterEvents(x.provider, t, roster, x.specs, x.at),
                   AbsentEvents(x.provider, t, absent, x.options, x.at), p);
    RemovalsAppend(s.ledger, SyncEvents(t, roster, x), p);
  }

  lemma AppliedBounds(s: Store, t: Table, x: SyncInput, roster: seq<string>, p: string)
    requires t == TableOf(s.tables, x.provider) && Enumerates(x.scan, LiveIds(t))
    requires p == x.provider ==> |AbsentIds(t, roster)| <= 5 && 10 * |AbsentIds(t, roster)| <= 3 * |LiveIds(t)|
    ensures Removals(Applied(s, t, roster, x).ledger, p) <= Removals(s.ledger, p) + if p == x.provider then 5 else 0
    ensures if p == x.provider then 10 * LiveCount(Applied(s, t, roster, x), p) >= 7 * LiveCount(s, p)
            else LiveCount(Applied(s, t, roster, x), p) == LiveCount(s, p)
  {
    AppliedRemovals(s, t, x, roster, p);
    if p == x.provider {
      assert LiveIds(t) - AbsentIds(t, roster) <= LiveIds(SyncedTable(t, roster, x));
      RemainderSize(LiveIds(t), AbsentIds(t, roster), LiveIds(SyncedTable(t, roster, x)));
    }
  }

  lemma StepBounds(s: Store, step: Step, p: string)
    requires Admits(s, step)
    requires Gated(step, p)
    ensures Removals(Next(s, step).ledger, p) <= Removals(s.ledger, p) + 5 * SyncsOf(step, p)
    ensures LosesAtMost(SyncsOf(step, p), LiveCount(s, p), LiveCount(Next(s, step), p))
  {
    match step
    case Policy(g, at) => PolicyBounds(s, g, at, p);
    case Sync(x) =>
      var t := TableOf(s.tables, x.provider);
      var verdict := Judge(t, x.fetch, x.options);
      if verdict.Apply? {
        if x.provider == p { GateBounds(t, x.fetch, x.options); }
        AppliedBounds(s, t, x, verdict.roster, p);
      }
  }

  /** A sync keeps seven tenths of the live rows, anything else all of them. */
  predicate LosesAtMost(syncs: nat, was: nat, live: nat) {
    if syncs == 0 then live == was else 10 * live >= 7 * was
  }

  lemma PolicyBounds(s: Store, g: Governed, at: Time, p: string)
    ensures Removals(PolicyOne(s, g, at).ledger, p) == Removals(s.ledger, p)
    ensures LiveCount(PolicyOne(s, g, at), p) == LiveCount(s, p)
  {
    var t := TableOf(s.tables, g.adapter.provider);
    PolicyOneKeepsLive(s, g, at);
    PolicyRemovesNothing(g, t, g.scan, at, p);
    RemovalsAppend(s.ledger, PolicyEvents(g, t, g.scan, at), p);
  }

  /** A loss of at most three tenths stays one at any power of ten. */
  lemma {:induction false} TensScale(k: nat, was: nat, now: nat)
    requires 10 * now >= 7 * was
    ensures 10 * Tens(k, now) >= 7 * Tens(k, was)
  {
    if k > 0 { TensScale(k - 1, was, now); }
  }

  /** After k syncs: the removals told of and the rows live, against those at the start. */
  predicate Bounded(k: nat, removals: nat, removalsNow: nat, live: nat, liveNow: nat) {
    removalsNow <= removals + 5 * k && Tens(k, liveNow) >= Sevens(k, live)
  }

  function Sum(c: seq<nat>): nat { if c == [] then 0 else Sum(c[..|c| - 1]) + c[|c| - 1] }

  /** Removals and live rows read after each step, and the syncs among the steps. */
  ghost predicate StepsBounded(r: seq<nat>, live: seq<nat>, syncs: seq<nat>) {
    && |r| == |live| == |syncs| + 1
    && forall i | 0 <= i < |syncs| ::
      syncs[i] <= 1 && r[i + 1] <= r[i] + 5 * syncs[i] && LosesAtMost(syncs[i], live[i], live[i + 1])
  }

  lemma {:induction false} LossAccumulates(r: seq<nat>, live: seq<nat>, syncs: seq<nat>)
    requires StepsBounded(r, live, syncs)
    ensures Bounded(Sum(syncs), r[0], r[|syncs|], live[0], live[|syncs|])
  {
    var n := |syncs|;
    if n > 0 {
      LossAccumulates(r[..n], live[..n], syncs[..n - 1]);
      if syncs[n - 1] == 1 { TensScale(Sum(syncs[..n - 1]), live[n - 1], live[n]); }
    }
  }

  predicate Gated(step: Step, p: string) {
    step.Sync? && step.x.provider == p ==> DefaultGate(step.x.options)
  }

  ghost predicate AllGated(steps: seq<Step>, p: string) { forall i | 0 <= i < |steps| :: Gated(steps[i], p) }

  lemma {:induction false} SyncsIsSum(more: seq<Step>, p: string, syncs: seq<nat>)
    requires |syncs| == |more| && forall i | 0 <= i < |more| :: syncs[i] == SyncsOf(more[i], p)
    ensures Syncs(more, p) == Sum(syncs)
  {
    if more != [] { SyncsIsSum(more[..|more| - 1], p, syncs[..|more| - 1]); }
  }

  lemma {:induction false} RunPrefix(start: Store, steps: seq<Step>, more: seq<Step>, n: nat)
    requires IsRun(start, steps + more) && n <= |more|
    ensures IsRun(start, steps + more[..n])
  {
    if n == |more| {
      assert more[..n] == more;
    } else {
      LastStep(start, steps, more);
      RunPrefix(start, steps, more[..|more| - 1], n);
      assert more[..|more| - 1][..n] == more[..n];
    }
  }

  /** What the n-th step may cost. */
  lemma StepAt(start: Store, steps: seq<Step>, more: seq<Step>, n: nat, p: string)
    requires IsRun(start, steps + more) && n < |more| && Gated(more[n], p)
    ensures var was, now := After(start, steps + more[..n]), After(start, steps + more[..n + 1]);
            && Removals(now.ledger, p) <= Removals(was.ledger, p) + 5 * SyncsOf(more[n], p)
            && LosesAtMost(SyncsOf(more[n], p), LiveCount(was, p), LiveCount(now, p))
  {
    RunPrefix(start, steps, more, n + 1);
    assert more[..n + 1][..n] == more[..n];
    LastStep(start, steps, more[..n + 1]);
    StepBounds(After(start, steps + more[..n]), more[n], p);
  }

  /**
   Over k syncs of a provider under the default gate, whatever else runs in
   between, at most 5k of its rows are removed and at least (7/10)^k stay live.
   */
  lemma LossIsBounded(start: Store, steps: seq<Step>, more: seq<Step>, p: string)
    requires IsRun(start, steps + more) && AllGated(more, p)
    ensures Bounded(Syncs(more, p),
                    Removals(After(start, steps).ledger, p), Removals(After(start, steps + more).ledger, p),
                    LiveCount(After(start, steps), p), LiveCount(After(start, steps + more), p))
  {
    var n := |more|;
    var r: seq<nat> := seq(n + 1, i requires 0 <= i <= n => Removals(After(start, steps + more[..i]).ledger, p));
    var live: seq<nat> := seq(n + 1, i requires 0 <= i <= n => LiveCount(After(start, steps + more[..i]), p));
    var syncs: seq<nat> := seq(n, i requires 0 <= i < n => SyncsOf(more[i], p));
    forall i | 0 <= i < n ensures r[i + 1] <= r[i] + 5 * syncs[i] && LosesAtMost(syncs[i], live[i], live[i + 1]) {
      StepAt(start, steps, more, i, p);
    }
    LossAccumulates(r, live, syncs);
    SyncsIsSum(more, p, syncs);
    assert steps + more[..0] == steps && more[..n] == more;
  }

  // ----- layer 5: consecutive omissions -------------------------------------------

  function MissesNext(m: nat, s: Store, step: Step, p: string, id: string): nat {
    if Lists(s, step, p, id) then 0 else if Omits(s, step, p, id) then m + 1 else m
  }

  function MissesOf(row: Option<Row>): nat { if row.Some? then row.value.missCount else 0 }

  /** The applied rosters that left a live row out since one last listed it, on top of the misses it started with. */
  function Omissions(start: Store, steps: seq<Step>, p: string, id: string): nat {
    if steps == [] then MissesOf(RowAt(start, p, id))
    else
      var front, step := steps[..|steps| - 1], steps[|steps| - 1];
      MissesNext(Omissions(start, front, p, id), After(start, front), step, p, id)
  }

  ghost predicate CountsMisses(row: Option<Row>, m: nat) {
    row.Some? ==> row.value.missCount == m
  }

  lemma MissStep(m: nat, s: Store, step: Step, p: string, id: string)
    requires CountsMisses(RowAt(s, p, id), m)
    ensures CountsMisses(NextRow(s, step, p, id), MissesNext(m, s, step, p, id))
  {
  }

  lemma {:induction false} MissCountIsOmissions(start: Store, steps: seq<Step>, p: string, id: string)
    requires IsRun(start, steps)
    ensures CountsMisses(RowAt(After(start, steps), p, id), Omissions(start, steps, p, id))
  {
    if steps != [] {
      var front, step := steps[..|steps| - 1], steps[|steps| - 1];
      MissCountIsOmissions(start, front, p, id);
      StepOnRow(After(start, front), step, p, id);
      MissStep(Omissions(start, front, p, id), After(start, front), step, p, id);
    }
  }

  lemma RetireStepIsExact(m: nat, s: Store, step: Step, p: string, id: string)
    requires CountsMisses(RowAt(s, p, id), m) && IsLive(RowAt(s, p, id))
    ensures !IsLive(NextRow(s, step, p, id)) <==> Omits(s, step, p, id) && m + 1 >= step.x.options.retireAfterMisses
  {
  }

  /**
   A live row is retired by exactly the omission that completes
   `retireAfterMisses` consecutive ones, and by no other step.
   */
  lemma RetiresAtTheThreshold(start: Store, steps: seq<Step>, step: Step, p: string, id: string)
    requires IsRun(start, steps + [step]) && IsLive(RowAt(After(start, steps), p, id))
    ensures !IsLive(RowAt(After(start, steps + [step]), p, id)) <==>
            Omits(After(start, steps), step, p, id)
              && Omissions(start, steps, p, id) + 1 >= step.x.options.retireAfterMisses
  {
    assert (steps + [step])[..|steps + [step]| - 1] == steps;
    MissCountIsOmissions(start, steps, p, id);
    StepOnRow(After(start, steps), step, p, id);
    RetireStepIsExact(Omissions(start, steps, p, id), After(start, steps), step, p, id);
  }
}
