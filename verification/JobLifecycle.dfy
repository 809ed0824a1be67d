/**
 The resolution queue beside the rows it serves, over whole histories: syncs,
 policies and full-sync windows that hold the runner's lock, targeted passes
 that hold it from the due query to the last recorded attempt, and bootstraps,
 which do not take it.
 */
module JobLifecycle {
  import opened CatalogTypes
  import opened ResolutionJobs
  import opened SyncEngine
  import opened PublishPolicy
  import opened CatalogRuns
  import opened Wrappers

  datatype Pass = Pass(handed: set<Key>, since: Time)

  /** `closed` counts, per job, the due passes that finished it in its current window. */
  datatype Desk = Desk(store: Store, now: Time, pass: Option<Pass>, closed: map<Key, nat>)

  datatype Act =
    | Catalog(step: Step)
    | Begin(issues: Issues, at: Time)
    | Bootstrap(issues: Issues, at: Time)
    | StartPass(at: Time)
    | FinishPass(issues: Issues, at: Time)
    | AbortPass(done: set<Key>, issues: Issues, at: Time)

  function ActTime(a: Act): Time {
    match a
    case Catalog(Sync(x)) => x.at
    case Catalog(Policy(_, at)) => at
    case Begin(_, at) => at
    case Bootstrap(_, at) => at
    case StartPass(at) => at
    case FinishPass(_, at) => at
    case AbortPass(_, _, at) => at
  }

  predicate IsOffered(s: Store, k: Key) {
    var row := RowAt(s, k.provider, k.model);
    row.Some? && (row.value.status == Active || row.value.status == Missing)
  }

  predicate IsRetired(s: Store, k: Key) {
    var row := RowAt(s, k.provider, k.model);
    row.Some? && row.value.status == Retired
  }

  /** The clock never runs back, issues are read from offered rows, and only a bootstrap ignores the lock. */
  ghost predicate Allowed(d: Desk, a: Act) {
    && ActTime(a) >= d.now
    && match a
       case Catalog(step) => d.pass.None? && Admits(d.store, step)
       case Begin(issues, _) => d.pass.None? && forall k :: k in issues <==> IsOffered(d.store, k)
       case Bootstrap(issues, _) => forall k :: k in issues <==> IsOffered(d.store, k)
       case StartPass(_) => d.pass.None?
       case FinishPass(issues, _) => d.pass.Some? && forall k :: k in issues <==> IsOffered(d.store, k)
       case AbortPass(done, issues, _) =>
         d.pass.Some? && done <= d.pass.value.handed && forall k :: k in issues <==> IsOffered(d.store, k)
  }

  function Closed(d: Desk, k: Key): nat { if k in d.closed then d.closed[k] else 0 }

  function Act1(d: Desk, a: Act): Desk {
    var jobs := d.store.jobs;
    match a
    case Catalog(step) => d.(store := Next(d.store, step), now := ActTime(a))
    case Begin(issues, at) =>
      d.(store := d.store.(jobs := Begun(jobs, issues, at)), now := at,
         closed := map k | k in d.closed && !(k in issues && issues[k] != []) :: d.closed[k])
    case Bootstrap(issues, at) =>
      d.(store := d.store.(jobs := Bootstrapped(jobs, issues, at)), now := at,
         closed := map k | k in d.closed && k in jobs :: d.closed[k])
    case StartPass(at) => d.(now := at, pass := Some(Pass(Due(jobs, at), at)))
    case FinishPass(issues, at) => if d.pass.None? then d else PassEnded(d, d.pass.value.handed, issues, at)
    case AbortPass(done, issues, at) => PassEnded(d, done, issues, at)
  }

  /** A pass ends having finished the jobs in `done`: all it was handed, or those before it gave up. */
  function PassEnded(d: Desk, done: set<Key>, issues: Issues, at: Time): Desk {
    d.(store := d.store.(jobs := FinishedAll(d.store.jobs, done, issues, at)), now := at, pass := None,
       closed := map k | k in d.closed.Keys + done :: Closed(d, k) + if k in done then 1 else 0)
  }

  const EMPTY_DESK := Desk(EMPTY_STORE, 0, None, map[])

  function AfterActs(acts: seq<Act>): Desk {
    if acts == [] then EMPTY_DESK else Act1(AfterActs(acts[..|acts| - 1]), acts[|acts| - 1])
  }

  ghost predicate IsHistory(acts: seq<Act>) {
    acts == [] || (IsHistory(acts[..|acts| - 1]) && Allowed(AfterActs(acts[..|acts| - 1]), acts[|acts| - 1]))
  }

  // ----- what every history keeps -----------------------------------------------

  /** `c` due passes of the job's window have finished it; the third kind of job never comes due again. */
  ghost predicate OnSchedule(j: Job, c: nat) {
    && c <= 2
    && j.attemptCount <= 1 + c
    && (j.status == Processing && j.nextAttempt.Some? ==>
          if c == 0 then j.nextAttempt.value <= j.windowStarted + FIRST_RETRY_MS
          else c == 1 && j.nextAttempt.value == j.windowStarted + RESOLUTION_WINDOW_MS)
  }

  /** A job handed to the running pass has a turn left, and its last turn only once its window is over. */
  ghost predicate HasTurn(j: Job, c: nat, since: Time) {
    c <= 1 && (c == 1 ==> since >= j.windowStarted + RESOLUTION_WINDOW_MS)
  }

  ghost predicate KeptWell(d: Desk, k: Key) {
    var j := Lookup(d.store.jobs, k);
    && (j.None? ==> Closed(d, k) == 0)
    && (j.Some? ==>
          && WellKept(j.value)
          && OnSchedule(j.value, Closed(d, k))
          && (IsRetired(d.store, k) ==> j.value.status != Processing))
    && (d.pass.Some? && k in d.pass.value.handed ==>
          j.Some? && d.pass.value.since <= d.now && HasTurn(j.value, Closed(d, k), d.pass.value.since))
  }

  // ----- one step at a time --------------------------------------------------------

  lemma SyncOnJob(s: Store, x: SyncInput, k: Key)
    requires Admits(s, Sync(x))
    requires var j := Lookup(s.jobs, k); j.Some? && IsRetired(s, k) ==> j.value.status != Processing
    ensures var j, after := Lookup(s.jobs, k), Lookup(Synced(s, x).jobs, k);
            && (after == j || (j.Some? && after == Some(Completed(j.value, x.at))))
            && (after.Some? && IsRetired(Synced(s, x), k) ==> after.value.status != Processing)
  {
    var t := TableOf(s.tables, x.provider);
    var verdict := Judge(t, x.fetch, x.options);
    SyncByVerdict(s, x, verdict);
    if verdict.Apply? {
      RetirementClosesJob(s, t, verdict.roster, x, k);
    }
  }

  /** A job as an applied sync leaves it: completed if its row was just retired. */
  function JobUnder(j: Option<Job>, retired: bool, at: Time): Option<Job> {
    if j.Some? && retired then Some(Completed(j.value, at)) else j
  }

  lemma AppliedJob(s: Store, t: Table, roster: seq<string>, x: SyncInput, k: Key)
    ensures Lookup(Applied(s, t, roster, x).jobs, k) ==
            JobUnder(Lookup(s.jobs, k), k.provider == x.provider
              && k.model in Retiring(t, AbsentIds(t, roster), x.options), x.at)
  {
    assert k in KeysOf(x.provider, Retiring(t, AbsentIds(t, roster), x.options)) <==>
           k.provider == x.provider && k.model in Retiring(t, AbsentIds(t, roster), x.options);
  }

  /** A rostered provider's row is retired afterwards only if it was before or is being retired now. */
  lemma RetiredNow(t: Table, roster: seq<string>, x: SyncInput, id: string)
    requires id in t && SyncedTable(t, roster, x)[id].status == Retired
    ensures t[id].status == Retired || id in Retiring(t, AbsentIds(t, roster), x.options)
  {
    AppliedRow(t, roster, x, id);
  }

  lemma NewRowsAreNotRetired(t: Table, roster: seq<string>, x: SyncInput, id: string)
    requires id !in t && id in SyncedTable(t, roster, x)
    ensures SyncedTable(t, roster, x)[id].status != Retired
  {
    AppliedRow(t, roster, x, id);
  }

  lemma RetirementClosesJob(s: Store, t: Table, roster: seq<string>, x: SyncInput, k: Key)
    requires t == TableOf(s.tables, x.provider)
    requires var j := Lookup(s.jobs, k); j.Some? && IsRetired(s, k) ==> j.value.status != Processing
    ensures var j, after := Lookup(s.jobs, k), Lookup(Applied(s, t, roster, x).jobs, k);
            && (after == j || (j.Some? && after == Some(Completed(j.value, x.at))))
            && (after.Some? && IsRetired(Applied(s, t, roster, x), k) ==> after.value.status != Processing)
  {
    AppliedJob(s, t, roster, x, k);
    if k.provider == x.provider && IsRetired(Applied(s, t, roster, x), k) {
      if k.model in t { RetiredNow(t, roster, x, k.model); } else { NewRowsAreNotRetired(t, roster, x, k.model); }
    }
  }

  lemma CatalogKeeps(d: Desk, step: Step, k: Key)
    requires KeptWell(d, k) && Allowed(d, Catalog(step))
    ensures KeptWell(Act1(d, Catalog(step)), k)
  {
    match step
    case Sync(x) => SyncOnJob(d.store, x, k);
    case Policy(g, at) => PolicyOnRow(d.store, g, at, k.provider, k.model);
  }

  lemma BeginKeeps(d: Desk, issues: Issues, at: Time, k: Key)
    requires KeptWell(d, k) && Allowed(d, Begin(issues, at))
    ensures KeptWell(Act1(d, Begin(issues, at)), k)
  {
    BegunAt(d.store.jobs, issues, at, k);
  }

  lemma BootstrapOnJob(d: Desk, issues: Issues, at: Time, k: Key)
    ensures var after := Act1(d, Bootstrap(issues, at));
            && Lookup(after.store.jobs, k)
               == RefreshedJob(Lookup(RepairedAll(d.store.jobs, issues.Keys), k), Issue(issues, k), at)
            && Closed(after, k) == (if k in d.store.jobs then Closed(d, k) else 0)
            && after.store.tables == d.store.tables && after.pass == d.pass && after.now == at
  {
    RefreshedAt(RepairedAll(d.store.jobs, issues.Keys), issues, at, k);
  }

  lemma BootstrapKeeps(d: Desk, issues: Issues, at: Time, k: Key)
    requires KeptWell(d, k) && Allowed(d, Bootstrap(issues, at))
    ensures KeptWell(Act1(d, Bootstrap(issues, at)), k)
  {
    BootstrapOnJob(d, issues, at, k);
    assert k in issues <==> IsOffered(d.store, k);
  }

  lemma StartKeeps(d: Desk, at: Time, k: Key)
    requires KeptWell(d, k) && Allowed(d, StartPass(at))
    ensures KeptWell(Act1(d, StartPass(at)), k)
  {
  }

  lemma EndKeeps(d: Desk, done: set<Key>, issues: Issues, at: Time, k: Key)
    requires KeptWell(d, k) && Allowed(d, AbortPass(done, issues, at))
    ensures KeptWell(PassEnded(d, done, issues, at), k)
  {
  }

  lemma ActKeeps(d: Desk, a: Act, k: Key)
    requires KeptWell(d, k) && Allowed(d, a)
    ensures KeptWell(Act1(d, a), k)
  {
    match a
    case Catalog(step) => CatalogKeeps(d, step, k);
    case Begin(issues, at) => BeginKeeps(d, issues, at, k);
    case Bootstrap(issues, at) => BootstrapKeeps(d, issues, at, k);
    case StartPass(at) => StartKeeps(d, at, k);
    case FinishPass(issues, at) => EndKeeps(d, d.pass.value.handed, issues, at, k);
    case AbortPass(done, issues, at) => EndKeeps(d, done, issues, at, k);
  }

  lemma {:induction false} HistoriesKeepJobs(acts: seq<Act>, k: Key)
    requires IsHistory(acts)
    ensures KeptWell(AfterActs(acts), k)
  {
    if acts != [] {
      HistoriesKeepJobs(acts[..|acts| - 1], k);
      ActKeeps(AfterActs(acts[..|acts| - 1]), acts[|acts| - 1], k);
    }
  }

  // ----- the promises --------------------------------------------------------------------

  /**
   In every history a job's window sees at most two finished due passes and
   three attempts in all; once it has seen two, the job is complete or dormant.
   Passes that give up before reaching the job are not attempts. A job
   is due exactly while processing, complete exactly when it has no reason left,
   and never processing for a retired offering.
   */
  lemma WindowsAreBounded(acts: seq<Act>, k: Key)
    requires IsHistory(acts) && k in AfterActs(acts).store.jobs
    ensures var d := AfterActs(acts);
            var j := d.store.jobs[k];
            && Closed(d, k) <= 2 && j.attemptCount <= 3
            && (Closed(d, k) == 2 ==> j.status == Complete || j.status == Dormant)
            && (j.status == Processing <==> j.nextAttempt.Some?)
            && (j.status == Complete <==> j.reasons == [])
            && (IsRetired(d.store, k) ==> j.status != Processing)
  {
    HistoriesKeepJobs(acts, k);
  }

  /** A pass that gives up leaves every job it did not reach as it was: due again for the next. */
  lemma UnreachedJobsStayDue(d: Desk, done: set<Key>, issues: Issues, at: Time, k: Key)
    requires k !in done
    ensures Lookup(PassEnded(d, done, issues, at).store.jobs, k) == Lookup(d.store.jobs, k)
    ensures Closed(PassEnded(d, done, issues, at), k) == Closed(d, k)
    ensures k in Due(d.store.jobs, at) <==> k in Due(PassEnded(d, done, issues, at).store.jobs, at)
  {
  }

  lemma JobSurvivesAct(d: Desk, a: Act, k: Key)
    requires Allowed(d, a) && k in d.store.jobs
    ensures k in Act1(d, a).store.jobs
    ensures Act1(d, a).store.jobs[k].firstDetected == d.store.jobs[k].firstDetected
  {
    match a
    case Catalog(step) => JobSurvivesStep(d.store, step, k);
    case Begin(issues, at) => BegunAt(d.store.jobs, issues, at, k);
    case Bootstrap(issues, at) => RefreshedAt(RepairedAll(d.store.jobs, issues.Keys), issues, at, k);
    case StartPass(at) =>
    case FinishPass(issues, at) =>
    case AbortPass(done, issues, at) =>
  }

  lemma JobSurvivesStep(s: Store, step: Step, k: Key)
    requires k in s.jobs
    ensures k in Next(s, step).jobs && Next(s, step).jobs[k].firstDetected == s.jobs[k].firstDetected
  {
    if step.Sync? {
      var t := TableOf(s.tables, step.x.provider);
      var verdict := Judge(t, step.x.fetch, step.x.options);
      SyncByVerdict(s, step.x, verdict);
      if verdict.Apply? { AppliedJob(s, t, verdict.roster, step.x, k); }
    }
  }

  /** A job is never dropped, and the time its gap was first detected never moves. */
  lemma {:induction false} FirstDetectionStays(acts: seq<Act>, more: seq<Act>, k: Key)
    requires IsHistory(acts + more) && k in AfterActs(acts).store.jobs
    ensures k in AfterActs(acts + more).store.jobs
    ensures AfterActs(acts + more).store.jobs[k].firstDetected == AfterActs(acts).store.jobs[k].firstDetected
  {
    if more == [] {
      assert acts + more == acts;
    } else {
      var front := acts + more[..|more| - 1];
      assert (acts + more)[..|acts + more| - 1] == front;
      FirstDetectionStays(acts, more[..|more| - 1], k);
      JobSurvivesAct(AfterActs(front), more[|more| - 1], k);
    }
  }
}
