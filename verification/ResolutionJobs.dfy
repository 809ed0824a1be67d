/**
 catalog/sync/resolution-jobs.ts: the durable queue of follow-up work for rows
 whose facts or scores are still open.
 */
module ResolutionJobs {
  import opened CatalogTypes
  import opened Wrappers

  const FIRST_RETRY_MS: int := 60_000
  const RESOLUTION_WINDOW_MS: int := 300_000

  datatype JobStatus = Processing | Dormant | Complete

  datatype Reason =
    | MissingContext | MissingMaxOutput | MissingModalities | MissingTools
    | MissingReasoning | MissingStructured | MissingAttachment | MissingCost
    | MissingVq | MissingVo | ConflictingOfficialSources

  datatype Job = Job(
    status: JobStatus,
    reasons: seq<Reason>,
    firstDetected: Time,
    windowStarted: Time,
    lastAttempt: Option<Time>,
    nextAttempt: Option<Time>,
    attemptCount: nat)

  type Jobs = map<Key, Job>

  datatype CostKind = KnownCost | UnknownCost

  /** The facts of one offered row, as the issue query reads them. */
  datatype Facts = Facts(
    contextTokens: Option<int>,
    outputTokens: Option<int>,
    modalities: Option<string>,
    tools: Option<bool>,
    reasoning: Option<bool>,
    structured: Option<bool>,
    attachment: Option<bool>,
    costKind: Option<CostKind>,
    vq: Option<real>,
    vo: Option<real>,
    conflicts: nat)

  function When(b: bool, r: Reason): seq<Reason> { if b then [r] else [] }

  function ReasonsOf(f: Facts): seq<Reason> { ShapeReasons(f) + AbilityReasons(f) + ValueReasons(f) }

  function ShapeReasons(f: Facts): seq<Reason> {
    When(f.contextTokens.None?, MissingContext) +
    When(f.outputTokens.None?, MissingMaxOutput) +
    When(f.modalities.None?, MissingModalities)
  }

  function AbilityReasons(f: Facts): seq<Reason> {
    When(f.tools.None?, MissingTools) +
    When(f.reasoning.None?, MissingReasoning) +
    When(f.structured.None?, MissingStructured) +
    When(f.attachment.None?, MissingAttachment)
  }

  function ValueReasons(f: Facts): seq<Reason> {
    When(f.costKind.None? || f.costKind.value.UnknownCost?, MissingCost) +
    When(f.vq.None?, MissingVq) +
    When(f.vo.None?, MissingVo) +
    When(f.conflicts > 0, ConflictingOfficialSources)
  }

  /** An offering has nothing left to resolve exactly when every fact is known and no source disagrees. */
  lemma NothingOutstanding(f: Facts)
    ensures ReasonsOf(f) == [] <==>
            && f.contextTokens.Some? && f.outputTokens.Some? && f.modalities.Some?
            && f.tools.Some? && f.reasoning.Some? && f.structured.Some? && f.attachment.Some?
            && f.costKind == Some(KnownCost) && f.vq.Some? && f.vo.Some? && f.conflicts == 0
  {
  }

  /** Reason by reason: the fact that is missing, or the sources that disagree. */
  lemma ReasonsExactly(f: Facts, r: Reason)
    ensures r in ReasonsOf(f) <==>
            match r
            case MissingContext => f.contextTokens == None
            case MissingMaxOutput => f.outputTokens == None
            case MissingModalities => f.modalities == None
            case MissingTools => f.tools == None
            case MissingReasoning => f.reasoning == None
            case MissingStructured => f.structured == None
            case MissingAttachment => f.attachment == None
            case MissingCost => f.costKind != Some(KnownCost)
            case MissingVq => f.vq == None
            case MissingVo => f.vo == None
            case ConflictingOfficialSources => f.conflicts > 0
  {
    ShapeReasonsExactly(f, r);
    AbilityReasonsExactly(f, r);
    ValueReasonsExactly(f, r);
  }

  lemma ShapeReasonsExactly(f: Facts, r: Reason)
    ensures r in ShapeReasons(f) <==>
              || (r == MissingContext && f.contextTokens == None)
              || (r == MissingMaxOutput && f.outputTokens == None)
              || (r == MissingModalities && f.modalities == None)
  {
  }

  lemma AbilityReasonsExactly(f: Facts, r: Reason)
    ensures r in AbilityReasons(f) <==>
              || (r == MissingTools && f.tools == None)
              || (r == MissingReasoning && f.reasoning == None)
              || (r == MissingStructured && f.structured == None)
              || (r == MissingAttachment && f.attachment == None)
  {
  }

  lemma ValueReasonsExactly(f: Facts, r: Reason)
    ensures r in ValueReasons(f) <==>
              || (r == MissingCost && f.costKind != Some(KnownCost))
              || (r == MissingVq && f.vq == None)
              || (r == MissingVo && f.vo == None)
              || (r == ConflictingOfficialSources && f.conflicts > 0)
  {
  }

  // ----- one job ---------------------------------------------------------

  /** The one definition of a finished job; it leaves the window and the count alone. */
  function Completed(j: Job, now: Time): Job {
    j.(status := Complete, reasons := [], lastAttempt := Some(now), nextAttempt := None)
  }

  function CompleteAll(jobs: Jobs, keys: set<Key>, now: Time): Jobs {
    map k | k in jobs :: if k in keys then Completed(jobs[k], now) else jobs[k]
  }

  function Opened(existing: Option<Job>, reasons: seq<Reason>, now: Time): Job {
    Job(Processing, reasons,
        if existing.Some? then existing.value.firstDetected else now,
        now, Some(now), Some(now + FIRST_RETRY_MS), 1)
  }

  function Finished(j: Job, reasons: seq<Reason>, now: Time): Job {
    var status :=
      if reasons == [] then Complete
      else if now >= j.windowStarted + RESOLUTION_WINDOW_MS then Dormant
      else Processing;
    j.(status := status, reasons := reasons, lastAttempt := Some(now),
       nextAttempt := if status == Processing then Some(j.windowStarted + RESOLUTION_WINDOW_MS) else None,
       attemptCount := j.attemptCount + 1)
  }

  function Seeded(reasons: seq<Reason>, now: Time): Job {
    Job(Processing, reasons, now, now, None, Some(now), 0)
  }

  function Lookup(jobs: Jobs, k: Key): Option<Job> {
    if k in jobs then Some(jobs[k]) else None
  }

  // ----- the four operations over the queue ------------------------------

  /** The rows that are active or missing, each with the reasons it is still open. */
  type Issues = map<Key, seq<Reason>>

  function IssuesOf(rows: map<Key, Facts>): (issues: Issues)
    ensures issues.Keys == rows.Keys
  {
    map k | k in rows :: ReasonsOf(rows[k])
  }

  function Issue(issues: Issues, k: Key): Option<seq<Reason>> {
    if k in issues then Some(issues[k]) else None
  }

  function BegunJob(held: Option<Job>, issue: Option<seq<Reason>>, now: Time): Option<Job> {
    if issue.None? then held
    else if issue.value == [] then
      if held.Some? then Some(Completed(held.value, now)) else None
    else Some(Opened(held, issue.value, now))
  }

  function Begun(jobs: Jobs, issues: Issues, now: Time): Jobs {
    map k | k in jobs.Keys + issues.Keys && BegunJob(Lookup(jobs, k), Issue(issues, k), now).Some?
      :: BegunJob(Lookup(jobs, k), Issue(issues, k), now).value
  }

  /** The repair that opens a bootstrap: a processing job of a row nobody offers is closed. */
  function Repaired(j: Job): Job {
    if j.status == Processing then j.(status := Complete, reasons := [], nextAttempt := None) else j
  }

  function RepairedAll(jobs: Jobs, offered: set<Key>): (repaired: Jobs)
    ensures repaired.Keys == jobs.Keys
  {
    map k | k in jobs :: if k in offered then jobs[k] else Repaired(jobs[k])
  }

  function RefreshedJob(held: Option<Job>, issue: Option<seq<Reason>>, now: Time): Option<Job> {
    if issue.None? then held
    else
      var reasons := issue.value;
      if held.None? then
        if reasons == [] then None else Some(Seeded(reasons, now))
      else if reasons == [] && held.value.status != Complete then Some(Completed(held.value, now))
      else if held.value.status == Processing then Some(held.value.(reasons := reasons))
      else held
  }

  function Refreshed(jobs: Jobs, issues: Issues, now: Time): Jobs {
    map k | k in jobs.Keys + issues.Keys && RefreshedJob(Lookup(jobs, k), Issue(issues, k), now).Some?
      :: RefreshedJob(Lookup(jobs, k), Issue(issues, k), now).value
  }

  function Bootstrapped(jobs: Jobs, issues: Issues, now: Time): Jobs {
    Refreshed(RepairedAll(jobs, issues.Keys), issues, now)
  }

  function FinishedJob(j: Job, issue: Option<seq<Reason>>, now: Time): Job {
    if issue.None? then Completed(j, now) else Finished(j, issue.value, now)
  }

  /** A targeted pass finishes every job it was handed at one moment. */
  function FinishedAll(jobs: Jobs, handed: set<Key>, issues: Issues, now: Time): Jobs {
    map k | k in jobs :: if k in handed then FinishedJob(jobs[k], Issue(issues, k), now) else jobs[k]
  }

  function Due(jobs: Jobs, now: Time): set<Key> {
    set k | k in jobs && jobs[k].status == Processing
            && jobs[k].nextAttempt.Some? && jobs[k].nextAttempt.value <= now
  }

  /** What every stored job keeps: due work iff processing, no reasons iff complete. */
  ghost predicate WellKept(j: Job) {
    && (j.status == Processing <==> j.nextAttempt.Some?)
    && (j.status == Complete <==> j.reasons == [])
  }

  // ----- the store's own loops ------------------------------------------

  class JobQueue {
    var jobs: Jobs

    constructor ()
      ensures jobs == map[]
    {
      jobs := map[];
    }

    method CompleteResolutionJob(k: Key, now: Time)
      modifies this
      ensures jobs == CompleteAll(old(jobs), {k}, now)
    {
      if k in jobs {
        jobs := jobs[k := Completed(jobs[k], now)];
      }
    }

    /** Start or reactivate one window for every offered row with open reasons. */
    method BeginResolutionWindow(rows: seq<Key>, facts: map<Key, Facts>, now: Time) returns (active: nat)
      requires Enumerates(rows, facts.Keys)
      modifies this
      ensures jobs == Begun(old(jobs), IssuesOf(facts), now)
      ensures active == |set k | k in facts && ReasonsOf(facts[k]) != []|
    {
      active := 0;
      ghost var was, issues := jobs, IssuesOf(facts);
      NoIssues(was, now);
      for i := 0 to |rows|
        invariant active == |Outstanding(Among(issues, Elems(rows[..i])), {})|
        invariant jobs == Begun(was, Among(issues, Elems(rows[..i])), now)
      {
        NextElement(rows, i, issues.Keys);
        BegunStep(was, issues, Elems(rows[..i]), rows[i], now);
        OneMoreIssue(issues, Elems(rows[..i]), rows[i], {});
        var started := BeginRow(rows[i], ReasonsOf(facts[rows[i]]), now);
        active := active + (if started then 1 else 0);
      }
      AllElements(rows, issues);
      assert Outstanding(issues, {}) == set k | k in facts && ReasonsOf(facts[k]) != [];
    }

    method BeginRow(k: Key, reasons: seq<Reason>, now: Time) returns (started: bool)
      modifies this
      ensures jobs == Put(old(jobs), k, BegunJob(Lookup(old(jobs), k), Some(reasons), now))
      ensures started == (reasons != [])
    {
      started := reasons != [];
      if !started {
        CompleteResolutionJob(k, now);
      } else {
        jobs := jobs[k := Opened(Lookup(jobs, k), reasons, now)];
      }
    }

    /** Seed the queue from the rows, and close what no longer has a row or a reason. */
    method BootstrapResolutionJobs(rows: seq<Key>, facts: map<Key, Facts>, now: Time) returns (inserted: nat)
      requires Enumerates(rows, facts.Keys)
      modifies this
      ensures jobs == Bootstrapped(old(jobs), IssuesOf(facts), now)
      ensures inserted == |set k | k in facts && ReasonsOf(facts[k]) != [] && k !in old(jobs)|
    {
      ghost var issues := IssuesOf(facts);
      CloseUnoffered(facts.Keys);
      inserted := 0;
      ghost var was := jobs;
      NoIssues(was, now);
      for i := 0 to |rows|
        invariant inserted == |Outstanding(Among(issues, Elems(rows[..i])), was.Keys)|
        invariant jobs == Refreshed(was, Among(issues, Elems(rows[..i])), now)
      {
        NextElement(rows, i, issues.Keys);
        RefreshedStep(was, issues, Elems(rows[..i]), rows[i], now);
        OneMoreIssue(issues, Elems(rows[..i]), rows[i], was.Keys);
        var seeded := BootstrapRow(rows[i], ReasonsOf(facts[rows[i]]), now);
        inserted := inserted + (if seeded then 1 else 0);
      }
      AllElements(rows, issues);
      assert Outstanding(issues, was.Keys) == set k | k in facts && ReasonsOf(facts[k]) != [] && k !in was;
    }

    method CloseUnoffered(offered: set<Key>)
      modifies this
      ensures jobs == RepairedAll(old(jobs), offered) && jobs.Keys == old(jobs).Keys
    {
      jobs := map k | k in jobs :: if k in offered then jobs[k] else Repaired(jobs[k]);
    }

    method BootstrapRow(k: Key, reasons: seq<Reason>, now: Time) returns (seeded: bool)
      modifies this
      ensures jobs == Put(old(jobs), k, RefreshedJob(Lookup(old(jobs), k), Some(reasons), now))
      ensures seeded == (k !in old(jobs) && reasons != [])
    {
      seeded := false;
      if k in jobs {
        if reasons == [] && jobs[k].status != Complete {
          CompleteResolutionJob(k, now);
        } else if jobs[k].status == Processing {
          jobs := jobs[k := jobs[k].(reasons := reasons)];
        }
      } else if reasons != [] {
        jobs := jobs[k := Seeded(reasons, now)];
        seeded := true;
      }
    }

    /**
     Record one targeted attempt: when the job is due again, if it is, and
     whether the ledger is told that it was resolved. A job closed because its
     row is offered no more is not announced.
     */
    method FinishResolutionAttempt(k: Key, issue: Option<seq<Reason>>, now: Time)
      returns (next: Option<Time>, announced: bool)
      modifies this
      ensures jobs == if k in old(jobs) then old(jobs)[k := FinishedJob(old(jobs)[k], issue, now)] else old(jobs)
      ensures next == if k in jobs then jobs[k].nextAttempt else None
      ensures announced <==> k in old(jobs) && issue == Some([])
    {
      next, announced := None, false;
      if k in jobs {
        if issue.None? {
          CompleteResolutionJob(k, now);
        } else {
          jobs := jobs[k := Finished(jobs[k], issue.value, now)];
          next := jobs[k].nextAttempt;
          announced := jobs[k].status == Complete;
        }
      }
    }

    /** The targeted pipeline's closing walk over the jobs it was handed. */
    method FinishPass(handed: seq<Key>, facts: map<Key, Facts>, now: Time)
      requires Distinct(handed)
      modifies this
      ensures jobs == FinishedAll(old(jobs), Elems(handed), IssuesOf(facts), now)
    {
      ghost var was, issues := jobs, IssuesOf(facts);
      for i := 0 to |handed|
        invariant jobs.Keys == was.Keys
        invariant forall k | k in was ::
                    jobs[k] == (if k in handed[..i] then FinishedJob(was[k], Issue(issues, k), now) else was[k])
      {
        var k := handed[i];
        assert handed[..i + 1] == handed[..i] + [k];
        var issue := if k in facts then Some(ReasonsOf(facts[k])) else None;
        var _, _ := FinishResolutionAttempt(k, issue, now);
      }
      assert handed[..|handed|] == handed;
    }
  }

  // ----- loop bookkeeping -------------------------------------------------

  function Put(jobs: Jobs, k: Key, next: Option<Job>): Jobs {
    if next.Some? then jobs[k := next.value] else jobs
  }

  /** The rows with something still open and no job among `held`. */
  function Outstanding(issues: Issues, held: set<Key>): set<Key> {
    set k | k in issues && issues[k] != [] && k !in held
  }

  function Among(issues: Issues, keys: set<Key>): Issues {
    map k | k in issues && k in keys :: issues[k]
  }

  lemma NextElement(rows: seq<Key>, i: nat, keys: set<Key>)
    requires Enumerates(rows, keys) && i < |rows|
    ensures rows[i] in keys && rows[i] !in Elems(rows[..i])
    ensures Elems(rows[..i + 1]) == Elems(rows[..i]) + {rows[i]}
  {
    assert rows[i] in Elems(rows);
    assert rows[..i + 1] == rows[..i] + [rows[i]];
  }

  lemma AllElements(rows: seq<Key>, issues: Issues)
    requires Enumerates(rows, issues.Keys)
    ensures Among(issues, Elems(rows[..|rows|])) == issues
  {
    assert rows[..|rows|] == rows;
  }

  lemma SameJobs(a: Jobs, b: Jobs)
    requires forall k :: Lookup(a, k) == Lookup(b, k)
    ensures a == b
  {
    assert forall k | k in a :: Lookup(b, k).Some?;
    assert forall k | k in b :: Lookup(a, k).Some?;
  }

  lemma BegunAt(jobs: Jobs, issues: Issues, now: Time, k: Key)
    ensures Lookup(Begun(jobs, issues, now), k) == BegunJob(Lookup(jobs, k), Issue(issues, k), now)
  {
  }

  lemma RefreshedAt(jobs: Jobs, issues: Issues, now: Time, k: Key)
    ensures Lookup(Refreshed(jobs, issues, now), k) == RefreshedJob(Lookup(jobs, k), Issue(issues, k), now)
  {
  }

  lemma NoIssues(jobs: Jobs, now: Time)
    ensures forall issues :: Among(issues, Elems([])) == map[]
    ensures Begun(jobs, map[], now) == jobs
    ensures Refreshed(jobs, map[], now) == jobs
  {
    SameJobs(Begun(jobs, map[], now), jobs);
    SameJobs(Refreshed(jobs, map[], now), jobs);
  }

  lemma OneMoreIssue(issues: Issues, seen: set<Key>, k: Key, held: set<Key>)
    requires k in issues && k !in seen
    ensures |Outstanding(Among(issues, seen + {k}), held)| ==
            |Outstanding(Among(issues, seen), held)| + (if issues[k] != [] && k !in held then 1 else 0)
  {
    var less, more := Outstanding(Among(issues, seen), held), Outstanding(Among(issues, seen + {k}), held);
    if issues[k] != [] && k !in held {
      assert more == less + {k};
    } else {
      assert more == less;
    }
  }

  lemma BegunStep(jobs: Jobs, issues: Issues, seen: set<Key>, k: Key, now: Time)
    requires k in issues && k !in seen
    ensures var before := Begun(jobs, Among(issues, seen), now);
            && Begun(jobs, Among(issues, seen + {k}), now)
               == Put(before, k, BegunJob(Lookup(before, k), Some(issues[k]), now))
  {
    var before := Begun(jobs, Among(issues, seen), now);
    var after := Put(before, k, BegunJob(Lookup(before, k), Some(issues[k]), now));
    forall j ensures Lookup(Begun(jobs, Among(issues, seen + {k}), now), j) == Lookup(after, j) {
      BegunAt(jobs, Among(issues, seen), now, j);
      BegunAt(jobs, Among(issues, seen + {k}), now, j);
    }
    SameJobs(Begun(jobs, Among(issues, seen + {k}), now), after);
  }

  lemma RefreshedStep(jobs: Jobs, issues: Issues, seen: set<Key>, k: Key, now: Time)
    requires k in issues && k !in seen
    ensures var before := Refreshed(jobs, Among(issues, seen), now);
            && Refreshed(jobs, Among(issues, seen + {k}), now)
               == Put(before, k, RefreshedJob(Lookup(before, k), Some(issues[k]), now))
            && (k in before <==> k in jobs)
  {
    var before := Refreshed(jobs, Among(issues, seen), now);
    var after := Put(before, k, RefreshedJob(Lookup(before, k), Some(issues[k]), now));
    forall j ensures Lookup(Refreshed(jobs, Among(issues, seen + {k}), now), j) == Lookup(after, j) {
      RefreshedAt(jobs, Among(issues, seen), now, j);
      RefreshedAt(jobs, Among(issues, seen + {k}), now, j);
    }
    SameJobs(Refreshed(jobs, Among(issues, seen + {k}), now), after);
  }
}
