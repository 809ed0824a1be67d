/**
 internal/httpapi/account_maintenance_tick.go: the sweep that probes, discovers,
 reconciles and refreshes every connected account, each on its own cadence.
 Times are in seconds.
 */
module AccountMaintenance {
  import opened Wrappers

  datatype Health = Unknown | Healthy | Degraded | Unavailable | Expired

  /** `lastCheck` is the persisted health stamp; `answer` is what a probe would return, none for an error. */
  datatype Target = Target(id: string, health: Health, lastCheck: Option<int>, answer: Option<Health>)

  datatype Call = Probe(id: string) | Discover(id: string) | Reconcile(id: string) | SyncQuota(id: string) | Purge

  datatype Attempt = Attempt(call: Call, at: int)

  /** The optional closures a sweep was built with. */
  datatype Wiring = Wiring(discover: bool, reconcile: bool, purge: bool)

  /** One scheduler tick: the clock's reading, and the accounts listed, none if the lister failed. */
  datatype Tick = Tick(now: int, listing: Option<seq<Target>>)

  type Stamps = map<string, int>

  datatype Sweep = Sweep(quotaAt: Stamps, discoveryAt: Stamps, log: seq<Attempt>)

  const BOOT := Sweep(map[], map[], [])

  const HEALTH_EVERY := 300
  const QUOTA_EVERY := 900
  const MODEL_EVERY := 900

  // ----- one target ------------------------------------------------------------------

  predicate Due(stamps: Stamps, id: string, now: int, every: int) {
    id !in stamps || now - stamps[id] >= every
  }

  predicate HealthDue(t: Target, now: int) {
    t.lastCheck.None? || now - t.lastCheck.value >= HEALTH_EVERY
  }

  function Called(s: Sweep, call: Call, now: int): Sweep {
    s.(log := s.log + [Attempt(call, now)])
  }

  function Reconciled(w: Wiring, s: Sweep, id: string, now: int): Sweep {
    var stamped := s.(quotaAt := s.quotaAt[id := now]);
    if w.reconcile then Called(stamped, Reconcile(id), now) else stamped
  }

  function Probed(s: Sweep, t: Target, now: int): Sweep {
    if HealthDue(t, now) then Called(s, Probe(t.id), now) else s
  }

  function HealthAfter(t: Target, now: int): Health {
    if !HealthDue(t, now) then t.health else if t.answer.Some? then t.answer.value else Unknown
  }

  function Discovered(w: Wiring, s: Sweep, t: Target, now: int): Sweep {
    if HealthAfter(t, now) == Healthy && w.discover && Due(s.discoveryAt, t.id, now, MODEL_EVERY) then
      Called(s.(discoveryAt := s.discoveryAt[t.id := now]), Discover(t.id), now)
    else s
  }

  function Refreshed(w: Wiring, s: Sweep, id: string, now: int): Sweep {
    if Due(s.quotaAt, id, now, QUOTA_EVERY) then Called(Reconciled(w, s, id, now), SyncQuota(id), now) else s
  }

  function Swept(w: Wiring, s: Sweep, t: Target, now: int): Sweep {
    if t.health == Expired then
      if Due(s.quotaAt, t.id, now, QUOTA_EVERY) then Reconciled(w, s, t.id, now) else s
    else Refreshed(w, Discovered(w, Probed(s, t, now), t, now), t.id, now)
  }

  function SweptAll(w: Wiring, s: Sweep, targets: seq<Target>, now: int): Sweep {
    if targets == [] then s
    else Swept(w, SweptAll(w, s, targets[..|targets| - 1], now), targets[|targets| - 1], now)
  }

  function Ticked(w: Wiring, s: Sweep, tick: Tick): Sweep {
    if tick.listing.None? then s
    else
      var swept := SweptAll(w, s, tick.listing.value, tick.now);
      if w.purge then Called(swept, Purge, tick.now) else swept
  }

  function AfterTicks(w: Wiring, ticks: seq<Tick>): Sweep {
    if ticks == [] then BOOT else Ticked(w, AfterTicks(w, ticks[..|ticks| - 1]), ticks[|ticks| - 1])
  }

  class AccountMaintenanceTick {
    const wiring: Wiring
    var lastQuotaAt: Stamps
    var lastDiscoveryAt: Stamps
    var log: seq<Attempt>

    function Snapshot(): Sweep
      reads this
    {
      Sweep(lastQuotaAt, lastDiscoveryAt, log)
    }

    constructor (wiring: Wiring)
      ensures this.wiring == wiring && Snapshot() == BOOT
    {
      this.wiring := wiring;
      lastQuotaAt, lastDiscoveryAt, log := map[], map[], [];
    }

    method Record(call: Call, now: int)
      modifies this`log
      ensures log == old(log) + [Attempt(call, now)]
    {
      log := log + [Attempt(call, now)];
    }

    method SweepTarget(t: Target, now: int)
      modifies this
      ensures Snapshot() == Swept(wiring, old(Snapshot()), t, now)
    {
      var currentHealth := t.health;
      if t.health == Expired {
        if Due(lastQuotaAt, t.id, now, QUOTA_EVERY) {
          lastQuotaAt := lastQuotaAt[t.id := now];
          if wiring.reconcile { Record(Reconcile(t.id), now); }
        }
        return;
      }
      if HealthDue(t, now) {
        Record(Probe(t.id), now);
        currentHealth := if t.answer.None? then Unknown else t.answer.value;
      }
      if currentHealth == Healthy && wiring.discover {
        if Due(lastDiscoveryAt, t.id, now, MODEL_EVERY) {
          // Stamped before the attempt, so a failing provider cools down too.
          lastDiscoveryAt := lastDiscoveryAt[t.id := now];
          Record(Discover(t.id), now);
        }
      }
      if Due(lastQuotaAt, t.id, now, QUOTA_EVERY) {
        lastQuotaAt := lastQuotaAt[t.id := now];
        if wiring.reconcile { Record(Reconcile(t.id), now); }
        Record(SyncQuota(t.id), now);
      }
    }

    method Run(tick: Tick) returns (listed: bool)
      modifies this
      ensures listed == tick.listing.Some?
      ensures Snapshot() == Ticked(wiring, old(Snapshot()), tick)
    {
      if tick.listing.None? { return false; }
      var targets := tick.listing.value;
      for i := 0 to |targets|
        invariant Snapshot() == SweptAll(wiring, old(Snapshot()), targets[..i], tick.now)
      {
        assert targets[..i + 1][..i] == targets[..i];
        SweepTarget(targets[i], tick.now);
      }
      assert targets[..|targets|] == targets;
      if wiring.purge { Record(Purge, tick.now); }
      listed := true;
    }
  }

  // ----- cadence -----------------------------------------------------------------------

  /** The least time between two such calls for one account; zero where nothing is promised. */
  function Gap(call: Call): int {
    match call
    case Discover(_) => MODEL_EVERY
    case Reconcile(_) => QUOTA_EVERY
    case SyncQuota(_) => QUOTA_EVERY
    case _ => 0
  }

  /** No throttled call is later than the stamp it was made under. */
  ghost predicate StampedBy(s: Sweep, a: Attempt) {
    match a.call
    case Discover(id) => id in s.discoveryAt && a.at <= s.discoveryAt[id]
    case Reconcile(id) => id in s.quotaAt && a.at <= s.quotaAt[id]
    case SyncQuota(id) => id in s.quotaAt && a.at <= s.quotaAt[id]
    case _ => true
  }

  ghost predicate Cadenced(s: Sweep) {
    && (forall i | 0 <= i < |s.log| :: StampedBy(s, s.log[i]))
    && (forall i, j | 0 <= i < j < |s.log| ::
          s.log[i].call == s.log[j].call && Gap(s.log[i].call) > 0 ==> s.log[j].at - s.log[i].at >= Gap(s.log[i].call))
  }

  lemma UnthrottledKeeps(s: Sweep, call: Call, now: int)
    requires Cadenced(s) && (call.Probe? || call.Purge?)
    ensures Cadenced(Called(s, call, now))
  {
  }

  lemma DiscoverKeeps(w: Wiring, s: Sweep, t: Target, now: int)
    requires Cadenced(s)
    ensures Cadenced(Discovered(w, s, t, now))
  {
  }

  lemma ReconcileKeeps(w: Wiring, s: Sweep, id: string, now: int)
    requires Cadenced(s) && Due(s.quotaAt, id, now, QUOTA_EVERY)
    ensures var r := Reconciled(w, s, id, now);
            Cadenced(r) && id in r.quotaAt && r.quotaAt[id] == now
            && forall i | 0 <= i < |r.log| :: r.log[i].call == SyncQuota(id) ==> now - r.log[i].at >= QUOTA_EVERY
  {
  }

  lemma RefreshKeeps(w: Wiring, s: Sweep, id: string, now: int)
    requires Cadenced(s)
    ensures Cadenced(Refreshed(w, s, id, now))
  {
    if Due(s.quotaAt, id, now, QUOTA_EVERY) { ReconcileKeeps(w, s, id, now); }
  }

  lemma SweepKeeps(w: Wiring, s: Sweep, t: Target, now: int)
    requires Cadenced(s)
    ensures Cadenced(Swept(w, s, t, now))
  {
    if t.health == Expired {
      if Due(s.quotaAt, t.id, now, QUOTA_EVERY) { ReconcileKeeps(w, s, t.id, now); }
    } else {
      if HealthDue(t, now) { UnthrottledKeeps(s, Probe(t.id), now); }
      DiscoverKeeps(w, Probed(s, t, now), t, now);
      RefreshKeeps(w, Discovered(w, Probed(s, t, now), t, now), t.id, now);
    }
  }

  lemma {:induction false} SweepsKeep(w: Wiring, s: Sweep, targets: seq<Target>, now: int)
    requires Cadenced(s)
    ensures Cadenced(SweptAll(w, s, targets, now))
  {
    if targets != [] {
      SweepsKeep(w, s, targets[..|targets| - 1], now);
      SweepKeeps(w, SweptAll(w, s, targets[..|targets| - 1], now), targets[|targets| - 1], now);
    }
  }

  /**
   Over any run of ticks, whatever the clock reads and however often an account
   is listed, its quota attempts, its discovery attempts and its funding
   reconciliations are each a quarter of an hour apart.
   */
  lemma {:induction false} CadenceIsKept(w: Wiring, ticks: seq<Tick>)
    ensures Cadenced(AfterTicks(w, ticks))
  {
    if ticks != [] {
      var s, tick := AfterTicks(w, ticks[..|ticks| - 1]), ticks[|ticks| - 1];
      CadenceIsKept(w, ticks[..|ticks| - 1]);
      if tick.listing.Some? {
        SweepsKeep(w, s, tick.listing.value, tick.now);
        if w.purge { UnthrottledKeeps(SweptAll(w, s, tick.listing.value, tick.now), Purge, tick.now); }
      }
    }
  }

  // ----- one account at a time -----------------------------------------------------------

  predicate IsFor(call: Call, id: string) { !call.Purge? && call.id == id }

  function CallsFor(log: seq<Attempt>, id: string): seq<Attempt> {
    if log == [] then []
    else CallsFor(log[..|log| - 1], id) + if IsFor(log[|log| - 1].call, id) then [log[|log| - 1]] else []
  }

  function OnlyFor(targets: seq<Target>, id: string): seq<Target> {
    if targets == [] then []
    else
      var last := targets[|targets| - 1];
      OnlyFor(targets[..|targets| - 1], id) + if last.id == id then [last] else []
  }

  function Alone(ticks: seq<Tick>, id: string): seq<Tick> {
    seq(|ticks|, i requires 0 <= i < |ticks| =>
      if ticks[i].listing.None? then ticks[i] else ticks[i].(listing := Some(OnlyFor(ticks[i].listing.value, id))))
  }

  function StampFor(stamps: Stamps, id: string): Option<int> {
    if id in stamps then Some(stamps[id]) else None
  }

  /** Two sweeps that treated one account alike. */
  predicate Alike(a: Sweep, b: Sweep, id: string) {
    && StampFor(a.quotaAt, id) == StampFor(b.quotaAt, id)
    && StampFor(a.discoveryAt, id) == StampFor(b.discoveryAt, id)
    && CallsFor(a.log, id) == CallsFor(b.log, id)
  }

  lemma CallsAppend(log: seq<Attempt>, a: Attempt, id: string)
    ensures CallsFor(log + [a], id) == CallsFor(log, id) + if IsFor(a.call, id) then [a] else []
  {
    assert (log + [a])[..|log|] == log;
  }

  lemma CallAlike(a: Sweep, b: Sweep, call: Call, now: int, id: string)
    requires Alike(a, b, id)
    ensures Alike(Called(a, call, now), Called(b, call, now), id)
    ensures !IsFor(call, id) ==> Alike(Called(a, call, now), b, id)
  {
    CallsAppend(a.log, Attempt(call, now), id);
    CallsAppend(b.log, Attempt(call, now), id);
  }

  lemma ReconcileAlike(w: Wiring, a: Sweep, b: Sweep, now: int, of: string, id: string)
    requires Alike(a, b, id)
    ensures of == id ==> Alike(Reconciled(w, a, of, now), Reconciled(w, b, of, now), id)
    ensures of != id ==> Alike(Reconciled(w, a, of, now), b, id)
  {
    var x, y := a.(quotaAt := a.quotaAt[of := now]), b.(quotaAt := b.quotaAt[of := now]);
    if of == id { CallAlike(x, y, Reconcile(of), now, id); } else { CallAlike(x, b, Reconcile(of), now, id); }
  }

  lemma DiscoverAlike(w: Wiring, a: Sweep, b: Sweep, t: Target, now: int, id: string)
    requires Alike(a, b, id)
    ensures t.id == id ==> Alike(Discovered(w, a, t, now), Discovered(w, b, t, now), id)
    ensures t.id != id ==> Alike(Discovered(w, a, t, now), b, id)
  {
    var x, y := a.(discoveryAt := a.discoveryAt[t.id := now]), b.(discoveryAt := b.discoveryAt[t.id := now]);
    if t.id == id { CallAlike(x, y, Discover(t.id), now, id); } else { CallAlike(x, b, Discover(t.id), now, id); }
  }

  lemma RefreshAlike(w: Wiring, a: Sweep, b: Sweep, now: int, of: string, id: string)
    requires Alike(a, b, id)
    ensures of == id ==> Alike(Refreshed(w, a, of, now), Refreshed(w, b, of, now), id)
    ensures of != id ==> Alike(Refreshed(w, a, of, now), b, id)
  {
    ReconcileAlike(w, a, b, now, of, id);
    var x, y := Reconciled(w, a, of, now), Reconciled(w, b, of, now);
    if of == id { CallAlike(x, y, SyncQuota(of), now, id); } else { CallAlike(x, b, SyncQuota(of), now, id); }
  }

  lemma SweepAlike(w: Wiring, a: Sweep, b: Sweep, t: Target, now: int, id: string)
    requires Alike(a, b, id)
    ensures t.id == id ==> Alike(Swept(w, a, t, now), Swept(w, b, t, now), id)
    ensures t.id != id ==> Alike(Swept(w, a, t, now), b, id)
  {
    if t.health == Expired {
      ReconcileAlike(w, a, b, now, t.id, id);
    } else {
      CallAlike(a, b, Probe(t.id), now, id);
      var x := Probed(a, t, now);
      var y := if t.id == id then Probed(b, t, now) else b;
      DiscoverAlike(w, x, y, t, now, id);
      RefreshAlike(w, Discovered(w, x, t, now), if t.id == id then Discovered(w, y, t, now) else b, now, t.id, id);
    }
  }

  lemma {:induction false} SweepsAlike(w: Wiring, a: Sweep, b: Sweep, targets: seq<Target>, now: int, id: string)
    requires Alike(a, b, id)
    ensures Alike(SweptAll(w, a, targets, now), SweptAll(w, b, OnlyFor(targets, id), now), id)
  {
    if targets != [] {
      var front, t := targets[..|targets| - 1], targets[|targets| - 1];
      SweepsAlike(w, a, b, front, now, id);
      SweepAlike(w, SweptAll(w, a, front, now), SweptAll(w, b, OnlyFor(front, id), now), t, now, id);
      var only := OnlyFor(front, id);
      if t.id == id {
        assert OnlyFor(targets, id)[..|OnlyFor(targets, id)| - 1] == only;
      } else {
        assert OnlyFor(targets, id) == only;
      }
    }
  }

  /**
   No account's failures, probes or stamps disturb another's: over any run, one
   account is called exactly as if it were the only one listed.
   */
  lemma {:induction false} AccountsAreIndependent(w: Wiring, ticks: seq<Tick>, id: string)
    ensures Alike(AfterTicks(w, ticks), AfterTicks(w, Alone(ticks, id)), id)
  {
    if ticks != [] {
      var front, tick := ticks[..|ticks| - 1], ticks[|ticks| - 1];
      AccountsAreIndependent(w, front, id);
      assert Alone(ticks, id)[..|ticks| - 1] == Alone(front, id);
      if tick.listing.Some? {
        var a, b := AfterTicks(w, front), AfterTicks(w, Alone(front, id));
        var only := OnlyFor(tick.listing.value, id);
        SweepsAlike(w, a, b, tick.listing.value, tick.now, id);
        CallAlike(SweptAll(w, a, tick.listing.value, tick.now), SweptAll(w, b, only, tick.now), Purge, tick.now, id);
      }
    }
  }

  // ----- expired accounts ------------------------------------------------------------------

  predicate OnlyExpired(targets: seq<Target>, id: string) {
    forall i | 0 <= i < |targets| :: targets[i].id == id ==> targets[i].health == Expired
  }

  /** `after` adds to `before` nothing for `id` but local reconciliation. */
  ghost predicate OnlyReconciles(before: seq<Attempt>, after: seq<Attempt>, id: string) {
    && before <= after
    && forall i | |before| <= i < |after| :: IsFor(after[i].call, id) ==> after[i].call == Reconcile(id)
  }

  lemma {:induction false} SweepsSpareExpired(w: Wiring, s: Sweep, targets: seq<Target>, now: int, id: string)
    requires OnlyExpired(targets, id)
    ensures OnlyReconciles(s.log, SweptAll(w, s, targets, now).log, id)
  {
    if targets != [] {
      SweepsSpareExpired(w, s, targets[..|targets| - 1], now, id);
    }
  }

  /** An account listed as expired gets no probe, no discovery and no quota call in that tick. */
  lemma ExpiredIsNotCalled(w: Wiring, s: Sweep, tick: Tick, id: string)
    requires tick.listing.Some? ==> OnlyExpired(tick.listing.value, id)
    ensures OnlyReconciles(s.log, Ticked(w, s, tick).log, id)
  {
    if tick.listing.Some? { SweepsSpareExpired(w, s, tick.listing.value, tick.now, id); }
  }

  // ----- freshness -----------------------------------------------------------------------

  predicate Lists(targets: seq<Target>, id: string) { exists i :: 0 <= i < |targets| && targets[i].id == id }

  /** The quota stamp in force, and whether it was set while the account was listed as expired. */
  datatype Stamp = Unstamped | Stamped(at: int, expired: bool)

  /** The stamp after one more listing of some account: told from listings and clock alone. */
  function Restamped(st: Stamp, t: Target, now: int, id: string): Stamp {
    if t.id == id && (st.Unstamped? || now - st.at >= QUOTA_EVERY) then Stamped(now, t.health == Expired) else st
  }

  function StampAfter(st: Stamp, targets: seq<Target>, now: int, id: string): Stamp {
    if targets == [] then st
    else Restamped(StampAfter(st, targets[..|targets| - 1], now, id), targets[|targets| - 1], now, id)
  }

  function StampInForce(ticks: seq<Tick>, id: string): Stamp {
    if ticks == [] then Unstamped
    else
      var st, tick := StampInForce(ticks[..|ticks| - 1], id), ticks[|ticks| - 1];
      if tick.listing.None? then st else StampAfter(st, tick.listing.value, tick.now, id)
  }

  predicate IsSync(a: Attempt, id: string) { a.call == SyncQuota(id) }

  /** The stamps agree; no sync is later than the stamp, and one was made under it unless it was set while expired. */
  ghost predicate Backed(s: Sweep, st: Stamp, id: string) {
    match st
    case Unstamped => id !in s.quotaAt && forall i | 0 <= i < |s.log| :: !IsSync(s.log[i], id)
    case Stamped(at, expired) =>
      && id in s.quotaAt && s.quotaAt[id] == at
      && (forall i | 0 <= i < |s.log| :: IsSync(s.log[i], id) ==>
            s.log[i].at == at || at - s.log[i].at >= QUOTA_EVERY)
      && (expired <==> forall i | 0 <= i < |s.log| :: IsSync(s.log[i], id) ==> s.log[i].at != at)
  }

  /** The account's syncs among the first `n` attempts are all there are. */
  ghost predicate NoSyncSince(log: seq<Attempt>, n: nat, id: string) {
    forall i | n <= i < |log| :: !IsSync(log[i], id)
  }

  /** The log grew; it ends in a sync of `id` made now if `synced`, and holds no new one otherwise. */
  ghost predicate Grew(was: seq<Attempt>, log: seq<Attempt>, id: string, synced: bool, now: int) {
    && was <= log
    && (forall i | |was| <= i < |log| && IsSync(log[i], id) :: synced && log[i].at == now)
    && (synced ==> |log| > |was| && IsSync(log[|log| - 1], id) && log[|log| - 1].at == now)
  }

  lemma BeforeRefreshing(w: Wiring, s: Sweep, t: Target, now: int, id: string)
    ensures Discovered(w, Probed(s, t, now), t, now).quotaAt == s.quotaAt
    ensures Grew(s.log, Discovered(w, Probed(s, t, now), t, now).log, id, false, now)
  {
  }

  lemma Refreshing(w: Wiring, s: Sweep, of: string, now: int, id: string)
    ensures StampFor(Refreshed(w, s, of, now).quotaAt, id) ==
            if of == id && Due(s.quotaAt, id, now, QUOTA_EVERY) then Some(now) else StampFor(s.quotaAt, id)
    ensures Grew(s.log, Refreshed(w, s, of, now).log, id, of == id && Due(s.quotaAt, id, now, QUOTA_EVERY), now)
  {
  }

  predicate SyncsNow(s: Sweep, t: Target, now: int, id: string) {
    t.id == id && Due(s.quotaAt, id, now, QUOTA_EVERY) && t.health != Expired
  }

  /** What one target does to the stamp and the syncs of `id`. */
  lemma SweepSyncs(w: Wiring, s: Sweep, t: Target, now: int, id: string)
    ensures StampFor(Swept(w, s, t, now).quotaAt, id) ==
            if t.id == id && Due(s.quotaAt, id, now, QUOTA_EVERY) then Some(now) else StampFor(s.quotaAt, id)
    ensures Grew(s.log, Swept(w, s, t, now).log, id, SyncsNow(s, t, now, id), now)
  {
    if t.health != Expired {
      BeforeRefreshing(w, s, t, now, id);
      Refreshing(w, Discovered(w, Probed(s, t, now), t, now), t.id, now, id);
    }
  }

  lemma SweepBacks(w: Wiring, s: Sweep, st: Stamp, t: Target, now: int, id: string)
    requires Backed(s, st, id)
    ensures Backed(Swept(w, s, t, now), Restamped(st, t, now, id), id)
  {
    SweepSyncs(w, s, t, now, id);
    var r := Swept(w, s, t, now);
    assert forall i | 0 <= i < |s.log| :: r.log[i] == s.log[i];
  }

  lemma {:induction false} SweepsBack(w: Wiring, s: Sweep, st: Stamp, targets: seq<Target>, now: int, id: string)
    requires Backed(s, st, id)
    ensures Backed(SweptAll(w, s, targets, now), StampAfter(st, targets, now, id), id)
  {
    if targets != [] {
      var front, t := targets[..|targets| - 1], targets[|targets| - 1];
      SweepsBack(w, s, st, front, now, id);
      SweepBacks(w, SweptAll(w, s, front, now), StampAfter(st, front, now, id), t, now, id);
    }
  }

  lemma PurgeBacks(s: Sweep, st: Stamp, now: int, id: string)
    requires Backed(s, st, id)
    ensures Backed(Called(s, Purge, now), st, id)
  {
    var r := Called(s, Purge, now);
    assert forall i | 0 <= i < |s.log| :: r.log[i] == s.log[i];
  }

  lemma {:induction false} StampsAreBacked(w: Wiring, ticks: seq<Tick>, id: string)
    ensures Backed(AfterTicks(w, ticks), StampInForce(ticks, id), id)
  {
    if ticks != [] {
      var s, tick := AfterTicks(w, ticks[..|ticks| - 1]), ticks[|ticks| - 1];
      var st := StampInForce(ticks[..|ticks| - 1], id);
      StampsAreBacked(w, ticks[..|ticks| - 1], id);
      if tick.listing.Some? {
        var targets := tick.listing.value;
        SweepsBack(w, s, st, targets, tick.now, id);
        if w.purge {
          PurgeBacks(SweptAll(w, s, targets, tick.now), StampAfter(st, targets, tick.now, id), tick.now, id);
        }
      }
    }
  }

  ghost predicate HasFreshSync(log: seq<Attempt>, id: string, now: int) {
    exists i :: 0 <= i < |log| && IsSync(log[i], id) && now - log[i].at < QUOTA_EVERY
  }

  /**
   While a stamp is in force and not yet due, the account's quota was synced in
   the last quarter of an hour exactly when the stamp was not set while the
   account was expired.
   */
  lemma FreshExactly(w: Wiring, ticks: seq<Tick>, id: string, now: int)
    requires StampInForce(ticks, id).Stamped? && 0 <= now - StampInForce(ticks, id).at < QUOTA_EVERY
    ensures HasFreshSync(AfterTicks(w, ticks).log, id, now) <==> !StampInForce(ticks, id).expired
  {
    StampsAreBacked(w, ticks, id);
  }

  lemma {:induction false} ListingLeavesRecent(st: Stamp, targets: seq<Target>, now: int, id: string)
    ensures Lists(targets, id) ==>
            StampAfter(st, targets, now, id).Stamped? && now - StampAfter(st, targets, now, id).at < QUOTA_EVERY
    ensures st.Stamped? && now - st.at < QUOTA_EVERY ==> StampAfter(st, targets, now, id) == st
  {
    if targets != [] {
      var front, t := targets[..|targets| - 1], targets[|targets| - 1];
      ListingLeavesRecent(st, front, now, id);
      if Lists(targets, id) && t.id != id {
        var i :| 0 <= i < |targets| && targets[i].id == id;
        assert front[i].id == id;
      }
    }
  }

  /**
   The other side of the cadence: after every tick that lists an account, its
   last quota sync is less than a quarter of an hour old, unless the stamp in
   force was set while it was expired.
   */
  lemma QuotaStaysFresh(w: Wiring, ticks: seq<Tick>, id: string)
    requires ticks != [] && ticks[|ticks| - 1].listing.Some? && Lists(ticks[|ticks| - 1].listing.value, id)
    ensures StampInForce(ticks, id).Stamped? && ticks[|ticks| - 1].now - StampInForce(ticks, id).at < QUOTA_EVERY
    ensures !StampInForce(ticks, id).expired ==> HasFreshSync(AfterTicks(w, ticks).log, id, ticks[|ticks| - 1].now)
  {
    var tick := ticks[|ticks| - 1];
    ListingLeavesRecent(StampInForce(ticks[..|ticks| - 1], id), tick.listing.value, tick.now, id);
    StampsAreBacked(w, ticks, id);
  }

  predicate OnlyWell(targets: seq<Target>, id: string) {
    forall i | 0 <= i < |targets| :: targets[i].id == id ==> targets[i].health != Expired
  }

  lemma {:induction false} WellListingsStampWell(st: Stamp, targets: seq<Target>, now: int, id: string)
    requires OnlyWell(targets, id) && (st.Stamped? ==> !st.expired)
    ensures StampAfter(st, targets, now, id).Stamped? ==> !StampAfter(st, targets, now, id).expired
  {
    if targets != [] { WellListingsStampWell(st, targets[..|targets| - 1], now, id); }
  }

  /** No stamp of an account never listed as expired was set while it was. */
  lemma {:induction false} NeverExpiredStampsWell(ticks: seq<Tick>, id: string)
    requires forall i | 0 <= i < |ticks| :: ticks[i].listing.Some? ==> OnlyWell(ticks[i].listing.value, id)
    ensures StampInForce(ticks, id).Stamped? ==> !StampInForce(ticks, id).expired
  {
    if ticks != [] {
      var front, tick := ticks[..|ticks| - 1], ticks[|ticks| - 1];
      NeverExpiredStampsWell(front, id);
      if tick.listing.Some? { WellListingsStampWell(StampInForce(front, id), tick.listing.value, tick.now, id); }
    }
  }

  lemma {:induction false} SweepsSpare(w: Wiring, s: Sweep, targets: seq<Target>, now: int, id: string, n: nat)
    requires id in s.quotaAt && now - s.quotaAt[id] < QUOTA_EVERY && NoSyncSince(s.log, n, id)
    ensures var r := SweptAll(w, s, targets, now);
            StampFor(r.quotaAt, id) == StampFor(s.quotaAt, id) && NoSyncSince(r.log, n, id)
  {
    if targets != [] {
      var front, t := targets[..|targets| - 1], targets[|targets| - 1];
      SweepsSpare(w, s, front, now, id, n);
      SweepSyncs(w, SweptAll(w, s, front, now), t, now, id);
    }
  }

  /** While a stamp is not due, no tick syncs the account, however it is listed. */
  lemma {:induction false} StampHoldsOff(w: Wiring, ticks: seq<Tick>, more: seq<Tick>, id: string, n: nat)
    requires id in AfterTicks(w, ticks).quotaAt && NoSyncSince(AfterTicks(w, ticks).log, n, id)
    requires forall i | 0 <= i < |more| :: more[i].now - AfterTicks(w, ticks).quotaAt[id] < QUOTA_EVERY
    ensures StampFor(AfterTicks(w, ticks + more).quotaAt, id) == StampFor(AfterTicks(w, ticks).quotaAt, id)
    ensures NoSyncSince(AfterTicks(w, ticks + more).log, n, id)
  {
    if more == [] {
      assert ticks + more == ticks;
    } else {
      var rest, tick := more[..|more| - 1], more[|more| - 1];
      StampHoldsOff(w, ticks, rest, id, n);
      assert (ticks + more)[..|ticks + more| - 1] == ticks + rest;
      if tick.listing.Some? { SweepsSpare(w, AfterTicks(w, ticks + rest), tick.listing.value, tick.now, id, n); }
    }
  }

  lemma {:induction false} ExpiredListingStamps(w: Wiring, s: Sweep, targets: seq<Target>, now: int, id: string)
    requires OnlyExpired(targets, id) && Due(s.quotaAt, id, now, QUOTA_EVERY)
    ensures Lists(targets, id) ==> StampFor(SweptAll(w, s, targets, now).quotaAt, id) == Some(now)
    ensures !Lists(targets, id) ==> StampFor(SweptAll(w, s, targets, now).quotaAt, id) == StampFor(s.quotaAt, id)
    ensures NoSyncSince(SweptAll(w, s, targets, now).log, |s.log|, id)
  {
    if targets != [] {
      var front, t := targets[..|targets| - 1], targets[|targets| - 1];
      ExpiredListingStamps(w, s, front, now, id);
      SweepSyncs(w, SweptAll(w, s, front, now), t, now, id);
      assert Lists(targets, id) <==> Lists(front, id) || t.id == id;
    }
  }

  /**
   The quota stamp is set for an expired account too. Whatever came before and
   whatever follows, an account found expired when its stamp was due is not
   synced for a quarter of an hour, though it recovers at once and nothing was
   fetched under the stamp.
   */
  lemma RecoveryWaitsForTheStamp(w: Wiring, before: seq<Tick>, down: Tick, more: seq<Tick>, id: string)
    requires down.listing.Some? && OnlyExpired(down.listing.value, id) && Lists(down.listing.value, id)
    requires Due(AfterTicks(w, before).quotaAt, id, down.now, QUOTA_EVERY)
    requires forall i | 0 <= i < |more| :: more[i].now - down.now < QUOTA_EVERY
    ensures NoSyncSince(AfterTicks(w, before + [down] + more).log, |AfterTicks(w, before).log|, id)
  {
    var s := AfterTicks(w, before);
    assert (before + [down])[..|before|] == before;
    ExpiredListingStamps(w, s, down.listing.value, down.now, id);
    StampHoldsOff(w, before + [down], more, id, |s.log|);
  }

  // ----- what a sweep does -----------------------------------------------------------------

  /** Never stamped, or stamped this many seconds ago. */
  predicate LongAgo(stamps: Stamps, id: string, now: int, seconds: int) { id in stamps ==> now - stamps[id] >= seconds }

  function If(b: bool, call: Call): seq<Call> { if b then [call] else [] }

  predicate ProbeIsOwed(t: Target, now: int) { t.lastCheck == None || now - t.lastCheck.value >= 300 }

  /** An account is looked up while the last answer about it, which is this sweep's own if there is one, is healthy. */
  predicate LookIsOwed(w: Wiring, discoveryAt: Stamps, t: Target, now: int) {
    && (if ProbeIsOwed(t, now) then t.answer == Some(Healthy) else t.health == Healthy)
    && w.discover && LongAgo(discoveryAt, t.id, now, 900)
  }

  /** The calls owed to one target, in the order they are made. */
  function CallsOwed(w: Wiring, s: Sweep, t: Target, now: int): seq<Call> {
    var refresh := LongAgo(s.quotaAt, t.id, now, 900);
    if t.health == Expired then If(refresh && w.reconcile, Reconcile(t.id))
    else If(ProbeIsOwed(t, now), Probe(t.id)) + If(LookIsOwed(w, s.discoveryAt, t, now), Discover(t.id))
         + (If(refresh && w.reconcile, Reconcile(t.id)) + If(refresh, SyncQuota(t.id)))
  }

  function Timed(calls: seq<Call>, now: int): seq<Attempt> {
    seq(|calls|, i requires 0 <= i < |calls| => Attempt(calls[i], now))
  }

  lemma TimedTogether(a: seq<Call>, b: seq<Call>, now: int)
    ensures Timed(a + b, now) == Timed(a, now) + Timed(b, now)
  {
  }

  lemma TimedIf(b: bool, call: Call, now: int)
    ensures Timed(If(b, call), now) == if b then [Attempt(call, now)] else []
  {
  }

  lemma ReconciledExactly(w: Wiring, s: Sweep, id: string, now: int)
    ensures Reconciled(w, s, id, now) ==
            s.(quotaAt := s.quotaAt[id := now], log := s.log + Timed(If(w.reconcile, Reconcile(id)), now))
  {
    TimedIf(w.reconcile, Reconcile(id), now);
  }

  lemma RefreshedExactly(w: Wiring, s: Sweep, id: string, now: int)
    ensures var refresh := LongAgo(s.quotaAt, id, now, 900);
            Refreshed(w, s, id, now) ==
            s.(quotaAt := if refresh then s.quotaAt[id := now] else s.quotaAt,
               log := s.log + Timed(If(refresh && w.reconcile, Reconcile(id)) + If(refresh, SyncQuota(id)), now))
  {
    var refresh := LongAgo(s.quotaAt, id, now, 900);
    ReconciledExactly(w, s, id, now);
    TimedTogether(If(refresh && w.reconcile, Reconcile(id)), If(refresh, SyncQuota(id)), now);
    TimedIf(refresh, SyncQuota(id), now);
    TimedIf(refresh && w.reconcile, Reconcile(id), now);
  }

  lemma LookedExactly(w: Wiring, s: Sweep, t: Target, now: int)
    requires t.health != Expired
    ensures var look := LookIsOwed(w, s.discoveryAt, t, now);
            Discovered(w, Probed(s, t, now), t, now) ==
            s.(discoveryAt := if look then s.discoveryAt[t.id := now] else s.discoveryAt,
               log := s.log + Timed(If(ProbeIsOwed(t, now), Probe(t.id)), now) + Timed(If(look, Discover(t.id)), now))
  {
    TimedIf(ProbeIsOwed(t, now), Probe(t.id), now);
    TimedIf(LookIsOwed(w, s.discoveryAt, t, now), Discover(t.id), now);
  }

  /**
   One target: its calls, all at the sweep's one reading of the clock, and its
   own two stamps, which are set whether or not a call succeeds; the quota's is
   set even when the account has expired and is not called at all.
   */
  lemma TargetIsSwept(w: Wiring, s: Sweep, t: Target, now: int)
    ensures Swept(w, s, t, now) ==
            Sweep(if LongAgo(s.quotaAt, t.id, now, 900) then s.quotaAt[t.id := now] else s.quotaAt,
                  if t.health != Expired && LookIsOwed(w, s.discoveryAt, t, now) then s.discoveryAt[t.id := now]
                  else s.discoveryAt,
                  s.log + Timed(CallsOwed(w, s, t, now), now))
  {
    if t.health == Expired {
      ReconciledExactly(w, s, t.id, now);
      TimedIf(false, Reconcile(t.id), now);
    } else {
      LookedExactly(w, s, t, now);
      RefreshedExactly(w, Discovered(w, Probed(s, t, now), t, now), t.id, now);
      var refresh := LongAgo(s.quotaAt, t.id, now, 900);
      LogsJoin(s.log, If(ProbeIsOwed(t, now), Probe(t.id)), If(LookIsOwed(w, s.discoveryAt, t, now), Discover(t.id)),
               If(refresh && w.reconcile, Reconcile(t.id)) + If(refresh, SyncQuota(t.id)), now);
    }
  }

  lemma LogsJoin(log: seq<Attempt>, a: seq<Call>, b: seq<Call>, c: seq<Call>, now: int)
    ensures log + Timed(a, now) + Timed(b, now) + Timed(c, now) == log + Timed(a + b + c, now)
  {
    TimedTogether(a + b, c, now);
    TimedTogether(a, b, now);
    Joined(log, Timed(a, now), Timed(b, now), Timed(c, now));
  }

  lemma Joined<T>(log: seq<T>, a: seq<T>, b: seq<T>, c: seq<T>)
    ensures log + a + b + c == log + (a + b + c)
  {
  }

  /** A listed tick sweeps its targets in order and purges at the end; one without a listing does nothing. */
  lemma TickIsSwept(w: Wiring, s: Sweep, tick: Tick, targets: seq<Target>, t: Target)
    ensures tick.listing == None ==> Ticked(w, s, tick) == s
    ensures tick.listing == Some(targets) ==>
              Ticked(w, s, tick) ==
              var swept := SweptAll(w, s, targets, tick.now);
              if w.purge then swept.(log := swept.log + [Attempt(Purge, tick.now)]) else swept
    ensures SweptAll(w, s, [], tick.now) == s
    ensures SweptAll(w, s, targets + [t], tick.now) == Swept(w, SweptAll(w, s, targets, tick.now), t, tick.now)
  {
    assert (targets + [t])[..|targets|] == targets;
  }

  /** Two discoveries, two reconciliations or two quota syncs of one account are 900 seconds apart. */
  lemma QuarterOfAnHourApart(w: Wiring, ticks: seq<Tick>, i: nat, j: nat)
    requires i < j < |AfterTicks(w, ticks).log| && AfterTicks(w, ticks).log[i].call == AfterTicks(w, ticks).log[j].call
    requires !AfterTicks(w, ticks).log[i].call.Probe? && !AfterTicks(w, ticks).log[i].call.Purge?
    ensures AfterTicks(w, ticks).log[j].at - AfterTicks(w, ticks).log[i].at >= 900
  {
    CadenceIsKept(w, ticks);
  }
}
