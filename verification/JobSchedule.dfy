/**
 When a job is due, over whole histories: from the acts alone it follows when
 its window was opened, how often a pass has finished it since, and so whether
 it waits, and until when, or has been given up.
 */
module JobSchedule {
  import opened CatalogRuns
  import opened CatalogTypes
  import opened JobLifecycle
  import opened ResolutionJobs
  import opened SyncEngine
  import opened Wrappers

  /**
   The last window of a job: when it was opened and how, how many passes have
   read its row since, the last of them when, and when its gap was found.
   */
  datatype Opening = Opening(at: Time, seeded: bool, finished: nat, last: Option<Time>, detected: Time)

  predicate Reopens(issues: Issues, k: Key) { k in issues && issues[k] != [] }

  function FullWindow(w: Option<Opening>, at: Time): Opening {
    Opening(at, false, 0, None, if w.Some? then w.value.detected else at)
  }

  /** A full sync opens a window for every row with something open; a bootstrap only for one that never had any. */
  function WindowNext(w: Option<Opening>, d: Desk, a: Act, k: Key): Option<Opening> {
    match a
    case Begin(issues, at) => if Reopens(issues, k) then Some(FullWindow(w, at)) else w
    case Bootstrap(issues, at) => if w == None && Reopens(issues, k) then Some(Opening(at, true, 0, None, at)) else w
    case FinishPass(issues, at) => if IsHanded(d, k) then ReadAgain(w, issues, k, at) else w
    case AbortPass(done, issues, at) => if k in done then ReadAgain(w, issues, k, at) else w
    case _ => w
  }

  function Window(acts: seq<Act>, k: Key): Option<Opening> {
    if acts == [] then None
    else WindowNext(Window(acts[..|acts| - 1], k), AfterActs(acts[..|acts| - 1]), acts[|acts| - 1], k)
  }

  /** A pass that took the job found its row offered. */
  function ReadAgain(w: Option<Opening>, issues: Issues, k: Key, at: Time): Option<Opening> {
    if w != None && k in issues then Some(w.value.(finished := w.value.finished + 1, last := Some(at))) else w
  }

  predicate IsHanded(d: Desk, k: Key) { d.pass != None && k in d.pass.value.handed }

  /** A pass finished the job when its five minutes were over. */
  predicate IsOver(w: Opening) { w.last != None && w.last.value >= w.at + 300_000 }

  /** A job found at a start is due at once, one of a full sync in a minute; after a pass, when the window is over. */
  function DueAt(w: Opening): Time {
    if w.finished > 0 then w.at + 300_000 else if w.seeded then w.at else w.at + 60_000
  }

  predicate Follows(j: Job, w: Opening) {
    && j.windowStarted == w.at && j.firstDetected == w.detected
    && j.attemptCount == w.finished + (if w.seeded then 0 else 1)
    && (j.status == Complete <==> j.reasons == [])
    && (j.status == Complete ==> j.nextAttempt == None)
    && (j.reasons != [] ==>
          && j.status == (if IsOver(w) then Dormant else Processing)
          && j.nextAttempt == (if IsOver(w) then None else Some(DueAt(w)))
          && j.lastAttempt == (if w.last != None then w.last else if w.seeded then None else Some(w.at)))
  }

  predicate OnTime(held: Option<Job>, w: Option<Opening>, now: Time) {
    && (held.Some? <==> w.Some?)
    && (held.Some? ==> Follows(held.value, w.value))
    && (w.Some? && w.value.last.Some? ==> w.value.last.value <= now)
  }

  // ----- one act at a time ----------------------------------------------------------------

  lemma CatalogOnTime(d: Desk, step: Step, w: Option<Opening>, k: Key)
    requires KeptWell(d, k) && Allowed(d, Catalog(step)) && OnTime(Lookup(d.store.jobs, k), w, d.now)
    ensures OnTime(Lookup(Act1(d, Catalog(step)).store.jobs, k), w, Act1(d, Catalog(step)).now)
  {
    match step
    case Sync(x) => SyncOnJob(d.store, x, k);
    case Policy(g, at) =>
  }

  lemma BegunOnTime(held: Option<Job>, w: Option<Opening>, issue: Option<seq<Reason>>, now: Time, at: Time)
    requires OnTime(held, w, now) && at >= now
    ensures OnTime(BegunJob(held, issue, at),
                   if issue.Some? && issue.value != [] then Some(FullWindow(w, at)) else w, at)
  {
  }

  lemma RefreshedOnTime(held: Option<Job>, w: Option<Opening>, issue: Option<seq<Reason>>, now: Time, at: Time)
    requires OnTime(held, w, now) && at >= now
    ensures OnTime(RefreshedJob(held, issue, at),
                   if w == None && issue.Some? && issue.value != [] then Some(Opening(at, true, 0, None, at))
                   else w, at)
  {
  }

  lemma RepairedOnTime(jobs: Jobs, offered: set<Key>, w: Option<Opening>, now: Time, k: Key)
    requires OnTime(Lookup(jobs, k), w, now)
    ensures OnTime(Lookup(RepairedAll(jobs, offered), k), w, now)
  {
  }

  lemma FinishedOnTime(j: Job, w: Opening, issue: Option<seq<Reason>>, now: Time, at: Time)
    requires OnTime(Some(j), Some(w), now) && at >= now
    ensures OnTime(Some(FinishedJob(j, issue, at)),
                   Some(if issue.Some? then w.(finished := w.finished + 1, last := Some(at)) else w), at)
  {
  }

  lemma EndOnTime(d: Desk, done: set<Key>, issues: Issues, at: Time, w: Option<Opening>, k: Key)
    requires OnTime(Lookup(d.store.jobs, k), w, d.now) && at >= d.now
    ensures OnTime(Lookup(PassEnded(d, done, issues, at).store.jobs, k),
                   if k in done then ReadAgain(w, issues, k, at) else w, at)
  {
    if k in d.store.jobs && k in done {
      FinishedOnTime(d.store.jobs[k], w.value, Issue(issues, k), d.now, at);
    }
  }

  lemma BootstrapOnTime(d: Desk, issues: Issues, at: Time, w: Option<Opening>, k: Key)
    requires OnTime(Lookup(d.store.jobs, k), w, d.now) && at >= d.now
    ensures OnTime(Lookup(Act1(d, Bootstrap(issues, at)).store.jobs, k),
                   if w == None && Reopens(issues, k) then Some(Opening(at, true, 0, None, at)) else w, at)
  {
    var repaired := RepairedAll(d.store.jobs, issues.Keys);
    RepairedOnTime(d.store.jobs, issues.Keys, w, d.now, k);
    RefreshedAt(repaired, issues, at, k);
    RefreshedOnTime(Lookup(repaired, k), w, Issue(issues, k), d.now, at);
  }

  lemma BeginOnTime(d: Desk, issues: Issues, at: Time, w: Option<Opening>, k: Key)
    requires OnTime(Lookup(d.store.jobs, k), w, d.now) && at >= d.now
    ensures OnTime(Lookup(Act1(d, Begin(issues, at)).store.jobs, k),
                   if Reopens(issues, k) then Some(FullWindow(w, at)) else w, at)
  {
    BegunAt(d.store.jobs, issues, at, k);
    BegunOnTime(Lookup(d.store.jobs, k), w, Issue(issues, k), d.now, at);
  }

  lemma ActOnTime(d: Desk, a: Act, w: Option<Opening>, k: Key)
    requires KeptWell(d, k) && Allowed(d, a) && OnTime(Lookup(d.store.jobs, k), w, d.now)
    ensures OnTime(Lookup(Act1(d, a).store.jobs, k), WindowNext(w, d, a, k), Act1(d, a).now)
  {
    match a
    case Catalog(step) => CatalogOnTime(d, step, w, k);
    case Begin(issues, at) => BeginOnTime(d, issues, at, w, k);
    case Bootstrap(issues, at) => BootstrapOnTime(d, issues, at, w, k);
    case StartPass(at) =>
    case FinishPass(issues, at) => EndOnTime(d, d.pass.value.handed, issues, at, w, k);
    case AbortPass(done, issues, at) => EndOnTime(d, done, issues, at, w, k);
  }

  // ----- the promises --------------------------------------------------------------------

  /** In every history every job is where its window puts it, and a row without a window has none. */
  lemma {:induction false} ScheduleIsKept(acts: seq<Act>, k: Key)
    requires IsHistory(acts)
    ensures OnTime(Lookup(AfterActs(acts).store.jobs, k), Window(acts, k), AfterActs(acts).now)
  {
    if acts != [] {
      ScheduleIsKept(acts[..|acts| - 1], k);
      HistoriesKeepJobs(acts[..|acts| - 1], k);
      ActOnTime(AfterActs(acts[..|acts| - 1]), acts[|acts| - 1], Window(acts[..|acts| - 1], k), k);
    }
  }

  /** A job with reasons is given up exactly when a pass finished it five minutes or more into its window. */
  lemma DormantExactly(acts: seq<Act>, k: Key)
    requires IsHistory(acts) && k in AfterActs(acts).store.jobs && AfterActs(acts).store.jobs[k].reasons != []
    ensures Window(acts, k).Some?
    ensures var w := Window(acts, k).value;
            AfterActs(acts).store.jobs[k].status == Dormant <==> w.last != None && w.last.value >= w.at + 300_000
  {
    ScheduleIsKept(acts, k);
  }

  /** It waits for its first pass a minute, or not at all if a bootstrap found it, and then for its window's end. */
  predicate WaitsInTurn(j: Job, w: Opening) {
    && j.status == Processing
    && j.nextAttempt == Some(j.windowStarted + (if w.finished > 0 then 300_000 else if w.seeded then 0 else 60_000))
  }

  lemma OpenIsDue(j: Job, w: Opening, now: Time)
    requires OnTime(Some(j), Some(w), now) && j.reasons != [] && now < j.windowStarted + 300_000
    ensures WaitsInTurn(j, w)
  {
  }

  /** While something is open and the five minutes are not over, a job waits in turn. */
  lemma OpenJobsAreDue(acts: seq<Act>, k: Key)
    requires IsHistory(acts) && k in AfterActs(acts).store.jobs && AfterActs(acts).store.jobs[k].reasons != []
    requires AfterActs(acts).now < AfterActs(acts).store.jobs[k].windowStarted + 300_000
    ensures Window(acts, k).Some? && WaitsInTurn(AfterActs(acts).store.jobs[k], Window(acts, k).value)
  {
    ScheduleIsKept(acts, k);
    OpenIsDue(AfterActs(acts).store.jobs[k], Window(acts, k).value, AfterActs(acts).now);
  }

  /** A pass is handed exactly the jobs with something open whose time has come. */
  lemma PassesTakeWhatIsDue(acts: seq<Act>, at: Time, k: Key)
    requires IsHistory(acts + [StartPass(at)])
    ensures IsHanded(AfterActs(acts + [StartPass(at)]), k) <==>
            && k in AfterActs(acts).store.jobs && AfterActs(acts).store.jobs[k].reasons != []
            && Window(acts, k).Some? && !IsOver(Window(acts, k).value) && DueAt(Window(acts, k).value) <= at
  {
    assert (acts + [StartPass(at)])[..|acts|] == acts;
    ScheduleIsKept(acts, k);
    HistoriesKeepJobs(acts, k);
  }

  /** What was last read of a row is what its job says: after a full sync, and after the pass that took it. */
  lemma ReasonsAreCurrent(d: Desk, issues: Issues, at: Time, k: Key)
    ensures k in issues && (k in d.store.jobs || issues[k] != []) ==>
              && k in Act1(d, Begin(issues, at)).store.jobs
              && Act1(d, Begin(issues, at)).store.jobs[k].reasons == issues[k]
    ensures IsHanded(d, k) && k in d.store.jobs ==>
              && k in Act1(d, FinishPass(issues, at)).store.jobs
              && Act1(d, FinishPass(issues, at)).store.jobs[k].reasons == if k in issues then issues[k] else []
  {
    BegunAt(d.store.jobs, issues, at, k);
  }

  /** A bootstrap brings the waiting jobs up to date, finishes what has nothing open or no row, and leaves the rest. */
  lemma BootstrapReadsReasons(d: Desk, issues: Issues, at: Time, k: Key)
    requires k in d.store.jobs && (d.store.jobs[k].status == Complete <==> d.store.jobs[k].reasons == [])
    ensures k in Act1(d, Bootstrap(issues, at)).store.jobs
    ensures var was, now := d.store.jobs[k], Act1(d, Bootstrap(issues, at)).store.jobs[k];
            now.reasons ==
            if k in issues && (issues[k] == [] || was.status == Processing) then issues[k]
            else if k !in issues && was.status == Processing then []
            else was.reasons
  {
    RefreshedAt(RepairedAll(d.store.jobs, issues.Keys), issues, at, k);
  }
}
