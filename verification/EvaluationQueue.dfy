/**
 catalog/server/evaluation-runner.ts: a FIFO queue with one worker and a
 cooperative stop. JavaScript runs one piece of code at a time, so each method
 below is one stretch between two awaits; calls from outside may come between
 any two of them. The worker's exit is two stretches: the empty-queue test with
 the flag resets, and some microtasks later the release of `working`.
 */
module EvaluationQueue {
  import opened Wrappers

  /** An accepted request; `ticket` counts acceptances and tells two requests for one offer apart. */
  datatype Job = Job(ticket: nat, provider: string, model: string)

  datatype Plan = Plan(blocked: Option<string>, dimensions: seq<string>, speedMissing: bool) | PlanThrew(error: string)

  /** What the outside answers in one stretch: the plan made in it, and the error of recalculating, if any. */
  datatype Reply = Reply(plan: Plan, recalc: Option<string>)

  datatype Result = Result(dimension: string, complete: bool)

  datatype Verdict = Stopped | Blocked(reason: string) | Failure(error: string) | Finished(short: seq<string>)

  datatype Memory = Memory(job: Job, verdict: Verdict)

  /**
   Where the worker waits. `Calling` awaits the executor for the first of the
   remaining calls; `Throwing` is a failed job on its way to the catch;
   `Between` awaits a job that has just been remembered; `Leaving` has left the
   loop, while its promise still counts as a running worker.
   */
  datatype Worker =
    | Off
    | Calling(job: Job, call: Call, rest: seq<string>, speedLeft: bool, done: seq<Result>)
    | Throwing(job: Job, error: string)
    | Between
    | Leaving

  datatype Call = Dimension(name: string) | Speed

  const RECENT_LIMIT := 10

  /** `accepted`, `log` and `cleared` are the whole history of accepted, remembered and stopped jobs, oldest first. */
  datatype State = State(
    queue: seq<Job>,
    current: Option<Job>,
    recent: seq<Memory>,
    stopping: bool,
    worker: Worker,
    accepted: seq<Job>,
    log: seq<Memory>,
    cleared: seq<Job>)

  datatype Public = Idle | Running | Stopping

  function PublicState(s: State): Public {
    if s.stopping then Stopping else if s.current.Some? then Running else Idle
  }

  // ----- the stretches of runJob and drain ------------------------------------

  function Remember(s: State, job: Job, v: Verdict): State {
    var recent := [Memory(job, v)] + s.recent;
    s.(recent := if |recent| <= RECENT_LIMIT then recent else recent[..RECENT_LIMIT],
       current := None,
       log := s.log + [Memory(job, v)])
  }

  function Short(done: seq<Result>): seq<string> {
    if done == [] then []
    else Short(done[..|done| - 1]) + if done[|done| - 1].complete then [] else [done[|done| - 1].dimension]
  }

  /** The end of runJob: what was measured is recalculated, and the job remembered if that does not throw. */
  function Conclude(s: State, job: Job, done: seq<Result>, recalc: Option<string>): State {
    if recalc.Some? then s.(worker := Throwing(job, recalc.value))
    else Remember(s, job, Finished(Short(done))).(worker := Between)
  }

  /** From the top of the dimension loop, or from its end, to the next await. */
  function Proceed(s: State, job: Job, dims: seq<string>, speedLeft: bool,
    done: seq<Result>, recalc: Option<string>): State
  {
    if s.stopping then Remember(s, job, Stopped).(worker := Between)
    else if dims != [] then s.(worker := Calling(job, Dimension(dims[0]), dims[1..], speedLeft, done))
    else if speedLeft then s.(worker := Calling(job, Speed, [], false, done))
    else Conclude(s, job, done, recalc)
  }

  /** runJob from its start: the job is planned again; one that is blocked or cannot be planned is never current. */
  function StartJob(s: State, job: Job, reply: Reply): State {
    match reply.plan
    case PlanThrew(error) => s.(worker := Throwing(job, error))
    case Plan(blocked, dimensions, speedMissing) =>
      if blocked.Some? then Remember(s, job, Blocked(blocked.value)).(worker := Between)
      else Proceed(s.(current := Some(job)), job, dimensions, speedMissing, [], reply.recalc)
  }

  function Exit(s: State): State {
    s.(stopping := false, current := None, worker := Leaving)
  }

  /** The drain loop from its test: the next job starts, or the worker leaves. */
  function Drain(s: State, reply: Reply): State {
    if s.queue == [] then Exit(s) else StartJob(s.(queue := s.queue[1..]), s.queue[0], reply)
  }

  /** The drain loop after a job: a stop seen here also drops what was queued since. */
  function AfterJob(s: State, reply: Reply): State {
    if s.stopping then Exit(s.(queue := [], cleared := s.cleared + s.queue)) else Drain(s, reply)
  }

  // ----- what callers and the executor do ----------------------------------------

  datatype Answer = Accepted(position: nat) | AlreadyQueued | Refused(reason: string) | Threw(error: string)

  predicate Wants(j: Job, provider: string, model: string) { j.provider == provider && j.model == model }

  predicate Pending(s: State, provider: string, model: string) {
    || (exists j | j in s.queue :: Wants(j, provider, model))
    || (s.current.Some? && Wants(s.current.value, provider, model))
  }

  function EnqueueAnswer(s: State, provider: string, model: string, plan: Plan): Answer {
    if plan.PlanThrew? then Threw(plan.error)
    else if plan.blocked.Some? then Refused(plan.blocked.value)
    else if Pending(s, provider, model) then AlreadyQueued
    else Accepted(|s.queue| + 1 + if s.current.Some? then 1 else 0)
  }

  /** `reply` answers the worker if this call starts it. */
  function Enqueued(s: State, provider: string, model: string, plan: Plan, reply: Reply): State {
    if !EnqueueAnswer(s, provider, model, plan).Accepted? then s
    else
      var queued := Queued(s, Job(|s.accepted|, provider, model));
      if s.worker.Off? then Drain(queued, reply) else queued
  }

  function Queued(s: State, job: Job): State {
    s.(queue := s.queue + [job], accepted := s.accepted + [job])
  }

  function Stop(s: State): State {
    s.(queue := [], cleared := s.cleared + s.queue, stopping := s.stopping || s.current.Some?)
  }

  /** The promise of a worker that has left settles; only now can another be started. */
  function Release(s: State): State {
    if s.worker.Leaving? then s.(worker := Off) else s
  }

  /** The executor answers the pending call. */
  function CallReturns(s: State, complete: bool, recalc: Option<string>): State {
    match s.worker
    case Calling(job, Dimension(name), rest, speedLeft, done) =>
      Proceed(s, job, rest, speedLeft, done + [Result(name, complete)], recalc)
    case Calling(job, Speed, _, _, done) =>
      Conclude(s, job, done + [Result("speed", complete)], recalc)
    case _ => s
  }

  function CallThrows(s: State, error: string): State {
    match s.worker
    case Calling(job, _, _, _, _) => s.(worker := Throwing(job, error))
    case _ => s
  }

  /** The worker picks up after its await on a finished or failed job. */
  function WorkerResumes(s: State, reply: Reply): State {
    match s.worker
    case Between => AfterJob(s, reply)
    case Throwing(job, error) => AfterJob(Remember(s, job, Failure(error)), reply)
    case _ => s
  }

  datatype Act =
    | DoEnqueue(provider: string, model: string, plan: Plan, reply: Reply)
    | DoStop
    | DoReturn(complete: bool, recalc: Option<string>)
    | DoThrow(error: string)
    | DoResume(reply: Reply)
    | DoRelease

  function Act1(s: State, a: Act): State {
    match a
    case DoEnqueue(p, m, plan, reply) => Enqueued(s, p, m, plan, reply)
    case DoStop => Stop(s)
    case DoReturn(complete, recalc) => CallReturns(s, complete, recalc)
    case DoThrow(error) => CallThrows(s, error)
    case DoResume(reply) => WorkerResumes(s, reply)
    case DoRelease => Release(s)
  }

  const START := State([], None, [], false, Off, [], [], [])

  function AfterActs(acts: seq<Act>): State {
    if acts == [] then START else Act1(AfterActs(acts[..|acts| - 1]), acts[|acts| - 1])
  }

  // ----- the runner -------------------------------------------------------------------------

  /** The last three fields only keep history; nothing is decided by them but a job's ticket. */
  class EvaluationRunner {
    var queue: seq<Job>
    var current: Option<Job>
    var recent: seq<Memory>
    var stopping: bool
    var working: Worker
    var accepted: seq<Job>
    var log: seq<Memory>
    var cleared: seq<Job>

    function Snapshot(): State
      reads this
    {
      State(queue, current, recent, stopping, working, accepted, log, cleared)
    }

    constructor ()
      ensures Snapshot() == START
    {
      queue, current, recent, stopping, working := [], None, [], false, Off;
      accepted, log, cleared := [], [], [];
    }

    method Enqueue(provider: string, model: string, plan: Plan, reply: Reply) returns (answer: Answer)
      modifies this
      ensures Snapshot() == Enqueued(old(Snapshot()), provider, model, plan, reply)
      ensures answer == EnqueueAnswer(old(Snapshot()), provider, model, plan)
    {
      if plan.PlanThrew? { return Threw(plan.error); }
      if plan.blocked.Some? { return Refused(plan.blocked.value); }
      var queued := exists j | j in queue :: Wants(j, provider, model);
      var active := current.Some? && Wants(current.value, provider, model);
      if queued || active { return AlreadyQueued; }
      var job := Job(|accepted|, provider, model);
      queue, accepted := queue + [job], accepted + [job];
      answer := Accepted(|queue| + if current.Some? then 1 else 0);
      if working.Off? {
        DrainLoop(reply);
      }
    }

    method RequestStop() returns (stopped: bool, dropped: nat)
      modifies this
      ensures Snapshot() == Stop(old(Snapshot()))
      ensures stopped == old(current).Some? && dropped == |old(queue)|
    {
      dropped := |queue|;
      cleared := cleared + queue;
      queue := [];
      stopped := current.Some?;
      if stopped { stopping := true; }
    }

    method DrainLoop(reply: Reply)
      modifies this
      ensures Snapshot() == Drain(old(Snapshot()), reply)
    {
      if queue == [] {
        stopping, current, working := false, None, Leaving;
        return;
      }
      var job := queue[0];
      queue := queue[1..];
      var plan := reply.plan;
      if plan.PlanThrew? {
        working := Throwing(job, plan.error);
        return;
      }
      if plan.blocked.Some? {
        RememberJob(job, Blocked(plan.blocked.value));
        working := Between;
        return;
      }
      current := Some(job);
      NextCall(job, plan.dimensions, plan.speedMissing, [], reply.recalc);
    }

    method NextCall(job: Job, dims: seq<string>, speedLeft: bool, done: seq<Result>, recalc: Option<string>)
      modifies this
      ensures Snapshot() == Proceed(old(Snapshot()), job, dims, speedLeft, done, recalc)
    {
      if stopping {
        RememberJob(job, Stopped);
        working := Between;
      } else if dims != [] {
        working := Calling(job, Dimension(dims[0]), dims[1..], speedLeft, done);
      } else if speedLeft {
        working := Calling(job, Speed, [], false, done);
      } else {
        ConcludeJob(job, done, recalc);
      }
    }

    /** A throw of the recalculation leaves the job current until it is caught. */
    method ConcludeJob(job: Job, done: seq<Result>, recalc: Option<string>)
      modifies this
      ensures Snapshot() == Conclude(old(Snapshot()), job, done, recalc)
    {
      if recalc.Some? {
        working := Throwing(job, recalc.value);
        return;
      }
      RememberJob(job, Finished(Short(done)));
      working := Between;
    }

    method RememberJob(job: Job, v: Verdict)
      modifies this
      ensures Snapshot() == Remember(old(Snapshot()), job, v)
    {
      recent := [Memory(job, v)] + recent;
      if |recent| > RECENT_LIMIT { recent := recent[..RECENT_LIMIT]; }
      current := None;
      log := log + [Memory(job, v)];
    }

    method CallReturned(complete: bool, recalc: Option<string>)
      modifies this
      ensures Snapshot() == CallReturns(old(Snapshot()), complete, recalc)
    {
      match working
      case Calling(job, Dimension(name), rest, speedLeft, done) =>
        NextCall(job, rest, speedLeft, done + [Result(name, complete)], recalc);
      case Calling(job, Speed, _, _, done) =>
        ConcludeJob(job, done + [Result("speed", complete)], recalc);
      case _ =>
    }

    method CallThrew(error: string)
      modifies this
      ensures Snapshot() == CallThrows(old(Snapshot()), error)
    {
      match working
      case Calling(job, _, _, _, _) => working := Throwing(job, error);
      case _ =>
    }

    method Resume(reply: Reply)
      modifies this
      ensures Snapshot() == WorkerResumes(old(Snapshot()), reply)
    {
      if !working.Throwing? && !working.Between? { return; }
      if working.Throwing? {
        RememberJob(working.job, Failure(working.error));
      }
      if stopping {
        cleared := cleared + queue;
        queue := [];
        stopping, current, working := false, None, Leaving;
      } else {
        DrainLoop(reply);
      }
    }

    method ReleaseWorker()
      modifies this
      ensures Snapshot() == Release(old(Snapshot()))
    {
      if working.Leaving? { working := Off; }
    }
  }
}
