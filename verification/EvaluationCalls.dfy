/**
 Which calls the evaluation queue makes, over whole histories: what the executor
 was asked for each job, and how that and the plan the job was taken up with
 decide what the job is remembered for.
 */
module EvaluationCalls {
  import opened EvaluationContract
  import opened EvaluationQueue
  import opened Wrappers

  // ----- what the outside sees ------------------------------------------------------------

  /** A call that came back; `complete` is the executor's own word on it. */
  datatype Return = Return(job: Job, call: Call, complete: bool)

  function NewReturn(s: State, a: Act): seq<Return> {
    if a.DoReturn? && s.worker.Calling? then [Return(s.worker.job, s.worker.call, a.complete)] else []
  }

  function Returned(acts: seq<Act>): seq<Return> {
    if acts == [] then []
    else Returned(acts[..|acts| - 1]) + NewReturn(AfterActs(acts[..|acts| - 1]), acts[|acts| - 1])
  }

  function ReturnsOf(rs: seq<Return>, job: Job): seq<Return> {
    if rs == [] then []
    else ReturnsOf(rs[..|rs| - 1], job) + if rs[|rs| - 1].job == job then [rs[|rs| - 1]] else []
  }

  function CallsOf(rs: seq<Return>): seq<Call> { seq(|rs|, i requires 0 <= i < |rs| => rs[i].call) }

  /** The names of the calls that came back incomplete, in order. */
  function Incomplete(rs: seq<Return>): seq<string> {
    if rs == [] then []
    else
      var r := rs[|rs| - 1];
      Incomplete(rs[..|rs| - 1]) +
      if r.complete then [] else [match r.call case Dimension(name) => name case Speed => "speed"]
  }

  /** A job that has left the queue for the executor, the log or the catch. */
  predicate HasLeft(s: State, job: Job) {
    job in Jobs(s.log) || s.current == Some(job) || (s.worker.Throwing? && s.worker.job == job)
  }

  /** The plan made in a stretch, if one may be. */
  function PlanIn(a: Act): Option<Plan> {
    match a
    case DoEnqueue(_, _, _, reply) => Some(reply.plan)
    case DoResume(reply) => Some(reply.plan)
    case _ => None
  }

  /** The plan a job was taken up with: the one made in the stretch in which it left the queue. */
  function PlanOf(acts: seq<Act>, job: Job): Option<Plan> {
    if acts == [] then None
    else
      var front := acts[..|acts| - 1];
      if HasLeft(AfterActs(acts), job) && !HasLeft(AfterActs(front), job) then PlanIn(acts[|acts| - 1])
      else PlanOf(front, job)
  }

  /** The calls a plan asks for: each dimension in order, then speed if it is missing. */
  function Asked(dimensions: seq<string>, speedMissing: bool): seq<Call> {
    seq(|dimensions|, i requires 0 <= i < |dimensions| => Dimension(dimensions[i]))
    + if speedMissing then [Speed] else []
  }

  predicate IsOpen(p: Option<Plan>) { p.Some? && p.value.Plan? && p.value.blocked == None }

  predicate AskedSoFar(p: Option<Plan>, calls: seq<Call>) {
    IsOpen(p) && calls <= Asked(p.value.dimensions, p.value.speedMissing)
  }

  /** What a job may be remembered for, by its plan and the calls that came back for it. */
  predicate Deserved(v: Verdict, p: Option<Plan>, rs: seq<Return>) {
    match v
    case Blocked(reason) => p.Some? && p.value.Plan? && p.value.blocked == Some(reason) && rs == []
    case Finished(short) =>
      && IsOpen(p) && CallsOf(rs) == Asked(p.value.dimensions, p.value.speedMissing)
      && short == Incomplete(rs)
    case Stopped => AskedSoFar(p, CallsOf(rs))
    case Failure(error) => (p == Some(PlanThrew(error)) && rs == []) || AskedSoFar(p, CallsOf(rs))
  }

  /** Where a job stands, by its plan and the calls that came back for it. */
  ghost predicate Told(s: State, job: Job, p: Option<Plan>, rs: seq<Return>) {
    && (!HasLeft(s, job) ==> p == None && rs == [])
    && (forall i | 0 <= i < |s.log| && s.log[i].job == job :: Deserved(s.log[i].verdict, p, rs))
    && (s.worker.Calling? && s.worker.job == job ==> OnTheWay(s.worker, p, rs))
    && (s.worker.Throwing? && s.worker.job == job ==> Deserved(Failure(s.worker.error), p, rs))
  }

  predicate OnTheWay(w: Worker, p: Option<Plan>, rs: seq<Return>)
    requires w.Calling?
  {
    && IsOpen(p)
    && Asked(p.value.dimensions, p.value.speedMissing) == CallsOf(rs) + [w.call] + Asked(w.rest, w.speedLeft)
    && Recorded(w.done, rs)
  }

  function ResultOf(r: Return): Result {
    Result(match r.call case Dimension(name) => name case Speed => "speed", r.complete)
  }

  predicate Recorded(done: seq<Result>, rs: seq<Return>) {
    |done| == |rs| && forall i | 0 <= i < |rs| :: done[i] == ResultOf(rs[i])
  }

  // ----- one stretch ------------------------------------------------------------------------

  lemma {:induction false} ShortIsIncomplete(done: seq<Result>, rs: seq<Return>)
    requires Recorded(done, rs)
    ensures Short(done) == Incomplete(rs)
  {
    if rs != [] { ShortIsIncomplete(done[..|done| - 1], rs[..|rs| - 1]); }
  }

  /** A job that ends now was not remembered before. */
  lemma RememberTold(s: State, job: Job, v: Verdict, p: Option<Plan>, rs: seq<Return>)
    requires job !in Jobs(s.log) && Deserved(v, p, rs)
    ensures Told(Remember(s, job, v).(worker := Between), job, p, rs)
  {
    JobsAppend(s.log, Memory(job, v));
    assert forall i | 0 <= i < |s.log| :: s.log[i].job == Jobs(s.log)[i];
  }

  /** The calls still to be made are what is asked beyond those that came back. */
  predicate Remains(p: Option<Plan>, rs: seq<Return>, dims: seq<string>, speedLeft: bool, done: seq<Result>) {
    && IsOpen(p) && Recorded(done, rs)
    && Asked(p.value.dimensions, p.value.speedMissing) == CallsOf(rs) + Asked(dims, speedLeft)
  }

  lemma ConcludeTold(s: State, job: Job, done: seq<Result>, recalc: Option<string>, p: Option<Plan>, rs: seq<Return>)
    requires s.current == Some(job) && job !in Jobs(s.log) && Remains(p, rs, [], false, done)
    ensures Told(Conclude(s, job, done, recalc), job, p, rs)
  {
    assert Asked([], false) == [];
    ShortIsIncomplete(done, rs);
    if recalc.None? {
      RememberTold(s, job, Finished(Short(done)), p, rs);
    } else {
      NotRemembered(s, job, p, rs);
    }
  }

  lemma NotRemembered(s: State, job: Job, p: Option<Plan>, rs: seq<Return>)
    requires job !in Jobs(s.log)
    ensures forall i | 0 <= i < |s.log| && s.log[i].job == job :: Deserved(s.log[i].verdict, p, rs)
  {
    assert forall i | 0 <= i < |s.log| :: s.log[i].job == Jobs(s.log)[i];
  }

  lemma NextAsked(dims: seq<string>, speedLeft: bool)
    requires dims != []
    ensures Asked(dims, speedLeft) == [Dimension(dims[0])] + Asked(dims[1..], speedLeft)
  {
  }

  lemma ProceedTold(s: State, job: Job, dims: seq<string>, speedLeft: bool, done: seq<Result>, recalc: Option<string>,
                    p: Option<Plan>, rs: seq<Return>)
    requires s.current == Some(job) && job !in Jobs(s.log) && Remains(p, rs, dims, speedLeft, done)
    ensures Told(Proceed(s, job, dims, speedLeft, done, recalc), job, p, rs)
  {
    NotRemembered(s, job, p, rs);
    if s.stopping {
      RememberTold(s, job, Stopped, p, rs);
    } else if dims != [] {
      NextAsked(dims, speedLeft);
      assert CallsOf(rs) + Asked(dims, speedLeft) == CallsOf(rs) + [Dimension(dims[0])] + Asked(dims[1..], speedLeft);
    } else if speedLeft {
      assert Asked(dims, true) == [Speed] && Asked([], false) == [];
      assert CallsOf(rs) + [Speed] == CallsOf(rs) + [Speed] + [];
    } else {
      ConcludeTold(s, job, done, recalc, p, rs);
    }
  }

  lemma StartTold(s: State, job: Job, reply: Reply)
    requires s.current.None? && job !in Jobs(s.log)
    ensures Told(StartJob(s, job, reply), job, Some(reply.plan), [])
  {
    match reply.plan
    case PlanThrew(error) => NotRemembered(s, job, Some(reply.plan), []);
    case Plan(blocked, dimensions, speedMissing) =>
      if blocked.Some? {
        RememberTold(s, job, Blocked(blocked.value), Some(reply.plan), []);
      } else {
        assert CallsOf([]) + Asked(dimensions, speedMissing) == Asked(dimensions, speedMissing);
        ProceedTold(s.(current := Some(job)), job, dimensions, speedMissing, [], reply.recalc, Some(reply.plan), []);
      }
  }

  // ----- the other jobs ---------------------------------------------------------------------

  predicate About(w: Worker, job: Job) { (w.Calling? || w.Throwing?) && w.job == job }

  /** Nothing happens to `job`: it is remembered no more often, and held as before. */
  ghost predicate Spared(s: State, after: State, job: Job) {
    && s.log <= after.log && (forall i | |s.log| <= i < |after.log| :: after.log[i].job != job)
    && (after.current == Some(job) <==> s.current == Some(job))
    && (About(after.worker, job) || About(s.worker, job) ==> after.worker == s.worker)
  }

  lemma SparedJobs(s: State, after: State, job: Job)
    requires Spared(s, after, job)
    ensures job in Jobs(after.log) <==> job in Jobs(s.log)
  {
    var was, now := Jobs(s.log), Jobs(after.log);
    assert forall i | 0 <= i < |s.log| :: now[i] == was[i];
    if job in now {
      var i :| 0 <= i < |now| && now[i] == job;
      assert after.log[i].job == job;
    }
    if job in was {
      var i :| 0 <= i < |was| && was[i] == job;
      assert now[i] == job;
    }
  }

  lemma SparedTold(s: State, after: State, job: Job, p: Option<Plan>, rs: seq<Return>)
    requires Spared(s, after, job) && Told(s, job, p, rs)
    ensures Told(after, job, p, rs) && (HasLeft(after, job) <==> HasLeft(s, job))
  {
    SparedJobs(s, after, job);
    forall i | 0 <= i < |after.log| && after.log[i].job == job ensures Deserved(after.log[i].verdict, p, rs) {
      assert after.log[i] == s.log[i];
    }
  }

  lemma ProceedSpares(s: State, mine: Job, dims: seq<string>, speedLeft: bool, done: seq<Result>,
                      recalc: Option<string>, job: Job)
    requires job != mine && s.current == Some(mine) && !About(s.worker, job)
    ensures Spared(s, Proceed(s, mine, dims, speedLeft, done, recalc), job)
    ensures Spared(s, Conclude(s, mine, done, recalc), job)
  {
  }

  lemma StartSpares(s: State, mine: Job, reply: Reply, job: Job)
    requires job != mine && s.current.None? && !About(s.worker, job)
    ensures Spared(s, StartJob(s, mine, reply), job)
  {
  }

  // ----- whose turn it is -------------------------------------------------------------------

  /** What the order of the line says of the log, the job in hand and the queue. */
  ghost predicate Apart(s: State) {
    && (forall j | j in s.queue :: j !in Jobs(s.log) && s.current != Some(j) && !About(s.worker, j))
    && (s.current.Some? ==> s.current.value !in Jobs(s.log))
    && (s.worker.Throwing? ==> s.worker.job !in Jobs(s.log))
    && (forall i, j | 0 <= i < j < |s.queue| :: s.queue[i] != s.queue[j])
  }

  lemma InLineApart(s: State)
    requires InStep(s) && InTicketOrder(Line(s))
    ensures Apart(s)
  {
    var a, b := Jobs(s.log), Held(s.current) + InTransit(s);
    assert Line(s) == a + b + s.queue;
    assert forall i | 0 <= i < |a| :: Line(s)[i] == a[i];
    assert forall i | 0 <= i < |b| :: Line(s)[|a| + i] == b[i];
    assert forall i | 0 <= i < |s.queue| :: Line(s)[|a| + |b| + i] == s.queue[i];
    if s.current.Some? { assert b[0] == s.current.value; }
    if s.worker.Throwing? { assert b[0] == s.worker.job; }
  }

  lemma HasLeftWhenStarted(s: State, job: Job, reply: Reply)
    requires s.current.None?
    ensures HasLeft(StartJob(s, job, reply), job)
  {
    var after := StartJob(s, job, reply);
    match reply.plan
    case PlanThrew(error) =>
    case Plan(blocked, dimensions, speedMissing) =>
      if blocked.Some? {
        JobsAppend(s.log, Memory(job, Blocked(blocked.value)));
      } else {
        LeftWhenProceeding(s.(current := Some(job)), job, dimensions, speedMissing, [], reply.recalc);
      }
  }

  lemma LeftWhenProceeding(s: State, job: Job, dims: seq<string>, speedLeft: bool, done: seq<Result>,
                           recalc: Option<string>)
    requires s.current == Some(job)
    ensures HasLeft(Proceed(s, job, dims, speedLeft, done, recalc), job)
    ensures HasLeft(Conclude(s, job, done, recalc), job)
  {
    JobsAppend(s.log, Memory(job, Stopped));
    JobsAppend(s.log, Memory(job, Finished(Short(done))));
  }

  // ----- one act ----------------------------------------------------------------------------

  /** The plan a job is known to have been taken up with, after one more act. */
  function PlanNext(p: Option<Plan>, s: State, a: Act, job: Job): Option<Plan> {
    if HasLeft(Act1(s, a), job) && !HasLeft(s, job) then PlanIn(a) else p
  }

  /** The drain loop from its test, reached with nobody in hand. */
  lemma DrainTold(s: State, reply: Reply, job: Job, p: Option<Plan>, rs: seq<Return>)
    requires s.current.None? && !s.worker.Calling? && !s.worker.Throwing? && Apart(s) && Told(s, job, p, rs)
    ensures Told(Drain(s, reply), job,
                 if HasLeft(Drain(s, reply), job) && !HasLeft(s, job) then Some(reply.plan) else p, rs)
  {
    if s.queue == [] {
      SparedTold(s, Exit(s), job, p, rs);
    } else {
      var rest, head := s.(queue := s.queue[1..]), s.queue[0];
      assert Drain(s, reply) == StartJob(rest, head, reply);
      if job == head {
        StartTold(rest, head, reply);
        HasLeftWhenStarted(rest, head, reply);
      } else {
        StartSpares(rest, head, reply, job);
        SparedTold(s, StartJob(rest, head, reply), job, p, rs);
      }
    }
  }

  lemma AfterJobTold(s: State, reply: Reply, job: Job, p: Option<Plan>, rs: seq<Return>)
    requires s.current.None? && !s.worker.Calling? && !s.worker.Throwing? && Apart(s) && Told(s, job, p, rs)
    ensures Told(AfterJob(s, reply), job,
                 if HasLeft(AfterJob(s, reply), job) && !HasLeft(s, job) then Some(reply.plan) else p, rs)
  {
    if s.stopping {
      SparedTold(s, AfterJob(s, reply), job, p, rs);
    } else {
      DrainTold(s, reply, job, p, rs);
    }
  }

  /** The catch, without what the worker does next. */
  function Caught(s: State): State
    requires s.worker.Throwing?
  {
    Remember(s, s.worker.job, Failure(s.worker.error)).(worker := Between)
  }

  lemma CaughtTold(s: State, job: Job, p: Option<Plan>, rs: seq<Return>)
    requires s.worker.Throwing? && InStep(s) && Apart(s) && Told(s, job, p, rs)
    ensures Told(Caught(s), job, p, rs) && (HasLeft(Caught(s), job) <==> HasLeft(s, job)) && Apart(Caught(s))
  {
    var mine, m := s.worker.job, Memory(s.worker.job, Failure(s.worker.error));
    JobsAppend(s.log, m);
    if job == mine {
      RememberTold(s, mine, Failure(s.worker.error), p, rs);
    } else {
      SparedTold(s, Caught(s), job, p, rs);
    }
  }

  lemma ResumeTold(s: State, reply: Reply, job: Job, p: Option<Plan>, rs: seq<Return>)
    requires InStep(s) && Apart(s) && Told(s, job, p, rs)
    ensures Told(Act1(s, DoResume(reply)), job, PlanNext(p, s, DoResume(reply), job), rs)
  {
    match s.worker
    case Between => AfterJobTold(s, reply, job, p, rs);
    case Throwing(mine, error) =>
      CaughtTold(s, job, p, rs);
      AfterJobTold(Caught(s), reply, job, p, rs);
      assert AfterJob(Caught(s), reply) == Act1(s, DoResume(reply));
    case _ =>
  }

  lemma QueuedTold(s: State, new_: Job, job: Job, p: Option<Plan>, rs: seq<Return>)
    requires Told(s, job, p, rs)
    ensures Told(Queued(s, new_), job, p, rs) && (HasLeft(Queued(s, new_), job) <==> HasLeft(s, job))
  {
    SparedTold(s, Queued(s, new_), job, p, rs);
  }

  lemma EnqueueTold(s: State, a: Act, job: Job, p: Option<Plan>, rs: seq<Return>)
    requires a.DoEnqueue? && InStep(s) && Told(s, job, p, rs)
    requires var new_ := Job(|s.accepted|, a.provider, a.model); Apart(Queued(s, new_))
    ensures Told(Act1(s, a), job, PlanNext(p, s, a, job), rs)
  {
    if Accepts(s, a) {
      var new_ := Job(|s.accepted|, a.provider, a.model);
      QueuedTold(s, new_, job, p, rs);
      if s.worker.Off? { DrainTold(Queued(s, new_), a.reply, job, p, rs); }
    }
  }

  lemma SpeedIsLast(dims: seq<string>, speed: bool, calls: seq<Call>, more: seq<Call>)
    requires Asked(dims, speed) == calls + [Speed] + more
    ensures more == []
  {
    var all := Asked(dims, speed);
    assert all[|calls|] == Speed;
    assert forall i | 0 <= i < |dims| :: all[i] == Dimension(dims[i]);
  }

  lemma ReturnTold(s: State, complete: bool, recalc: Option<string>, job: Job, p: Option<Plan>, rs: seq<Return>)
    requires InStep(s) && Apart(s) && Told(s, job, p, rs) && s.worker.Calling?
    ensures var r := Return(s.worker.job, s.worker.call, complete);
            Told(Act1(s, DoReturn(complete, recalc)), job, p, if s.worker.job == job then rs + [r] else rs)
    ensures HasLeft(Act1(s, DoReturn(complete, recalc)), job) <==> HasLeft(s, job)
  {
    ReturnedCall(s, complete, recalc);
    var w := s.worker;
    var r := Return(w.job, w.call, complete);
    if w.job != job {
      if w.call.Dimension? {
        ProceedSpares(s, w.job, w.rest, w.speedLeft, w.done + [Result(w.call.name, complete)], recalc, job);
      } else {
        ProceedSpares(s, w.job, [], false, w.done + [Result("speed", complete)], recalc, job);
      }
      SparedTold(s, Act1(s, DoReturn(complete, recalc)), job, p, rs);
    } else {
      OneMoreReturn(w, p, rs, r);
      if w.call.Dimension? {
        ProceedTold(s, job, w.rest, w.speedLeft, w.done + [Result(w.call.name, complete)], recalc, p, rs + [r]);
        LeftWhenProceeding(s, job, w.rest, w.speedLeft, w.done + [Result(w.call.name, complete)], recalc);
      } else {
        ConcludeTold(s, job, w.done + [Result("speed", complete)], recalc, p, rs + [r]);
        LeftWhenProceeding(s, job, [], false, w.done + [Result("speed", complete)], recalc);
      }
    }
  }

  lemma OneMoreReturn(w: Worker, p: Option<Plan>, rs: seq<Return>, r: Return)
    requires w.Calling? && OnTheWay(w, p, rs) && r.call == w.call
    ensures Remains(p, rs + [r], if w.call.Dimension? then w.rest else [], w.call.Dimension? && w.speedLeft,
                    w.done + [ResultOf(r)])
  {
    assert CallsOf(rs + [r]) == CallsOf(rs) + [w.call];
    if w.call.Speed? {
      SpeedIsLast(p.value.dimensions, p.value.speedMissing, CallsOf(rs), Asked(w.rest, w.speedLeft));
      assert Asked([], false) == [];
    }
  }

  lemma ThrowTold(s: State, error: string, job: Job, p: Option<Plan>, rs: seq<Return>)
    requires InStep(s) && Told(s, job, p, rs)
    ensures Told(CallThrows(s, error), job, p, rs) && (HasLeft(CallThrows(s, error), job) <==> HasLeft(s, job))
  {
    if s.worker.Calling? && s.worker.job == job {
      assert CallsOf(rs) <= Asked(p.value.dimensions, p.value.speedMissing);
    } else {
      SparedTold(s, CallThrows(s, error), job, p, rs);
    }
  }

  function ReturnsNext(rs: seq<Return>, s: State, a: Act, job: Job): seq<Return> {
    if a.DoReturn? && s.worker.Calling? && s.worker.job == job
    then rs + [Return(s.worker.job, s.worker.call, a.complete)] else rs
  }

  lemma ActTold(s: State, a: Act, job: Job, p: Option<Plan>, rs: seq<Return>)
    requires InStep(s) && Apart(s) && Told(s, job, p, rs)
    requires a.DoEnqueue? ==> Apart(Queued(s, Job(|s.accepted|, a.provider, a.model)))
    ensures Told(Act1(s, a), job, PlanNext(p, s, a, job), ReturnsNext(rs, s, a, job))
  {
    match a
    case DoEnqueue(_, _, _, _) => EnqueueTold(s, a, job, p, rs);
    case DoStop => SparedTold(s, Stop(s), job, p, rs);
    case DoReturn(complete, recalc) => if s.worker.Calling? { ReturnTold(s, complete, recalc, job, p, rs); }
    case DoThrow(error) => ThrowTold(s, error, job, p, rs);
    case DoResume(reply) => ResumeTold(s, reply, job, p, rs);
    case DoRelease => SparedTold(s, Release(s), job, p, rs);
  }

  // ----- the promises -------------------------------------------------------------------------

  lemma ReturnsGrow(rs: seq<Return>, more: seq<Return>, job: Job)
    requires |more| <= 1
    ensures ReturnsOf(rs + more, job) == ReturnsOf(rs, job) + if more != [] && more[0].job == job then more else []
  {
    if more == [] {
      assert rs + more == rs;
    } else {
      assert (rs + more)[..|rs|] == rs;
    }
  }

  lemma NewestIsApart(s: State, provider: string, model: string)
    requires Good(s) && InTicketOrder(Line(s))
    ensures Apart(Queued(s, Job(|s.accepted|, provider, model)))
  {
    var new_ := Job(|s.accepted|, provider, model);
    LineIsIssued(s);
    NewestGoesLast(Line(s), new_);
    assert Line(Queued(s, new_)) == Line(s) + [new_];
    InLineApart(Queued(s, new_));
  }

  lemma NothingTold(job: Job)
    ensures Told(START, job, None, [])
  {
  }

  lemma PlanStep(acts: seq<Act>, job: Job)
    requires acts != []
    ensures var front := acts[..|acts| - 1];
            PlanOf(acts, job) == PlanNext(PlanOf(front, job), AfterActs(front), acts[|front|], job)
  {
  }

  lemma ReturnsStep(acts: seq<Act>, job: Job)
    requires acts != []
    ensures var front := acts[..|acts| - 1];
            ReturnsOf(Returned(acts), job) ==
            ReturnsNext(ReturnsOf(Returned(front), job), AfterActs(front), acts[|front|], job)
  {
    var front := acts[..|acts| - 1];
    ReturnedStep(acts);
    ReturnsGrow(Returned(front), NewReturn(AfterActs(front), acts[|front|]), job);
    NewReturnIs(AfterActs(front), acts[|front|], job);
  }

  lemma ReturnedStep(acts: seq<Act>)
    requires acts != []
    ensures Returned(acts) == Returned(acts[..|acts| - 1]) + NewReturn(AfterActs(acts[..|acts| - 1]), acts[|acts| - 1])
  {
  }

  lemma NewReturnIs(s: State, a: Act, job: Job)
    ensures |NewReturn(s, a)| <= 1
    ensures forall rs :: ReturnsNext(rs, s, a, job) ==
                         rs + if NewReturn(s, a) != [] && NewReturn(s, a)[0].job == job then NewReturn(s, a) else []
  {
  }

  lemma {:induction false} HistoriesAreTold(acts: seq<Act>, job: Job)
    ensures Told(AfterActs(acts), job, PlanOf(acts, job), ReturnsOf(Returned(acts), job))
  {
    if acts == [] {
      NothingTold(job);
    } else {
      HistoriesAreTold(acts[..|acts| - 1], job);
      PlanStep(acts, job);
      ReturnsStep(acts, job);
      HistoryStep(acts[..|acts| - 1], acts[|acts| - 1], job, PlanOf(acts[..|acts| - 1], job),
                  ReturnsOf(Returned(acts[..|acts| - 1]), job));
    }
  }

  lemma HistoryStep(front: seq<Act>, a: Act, job: Job, p: Option<Plan>, rs: seq<Return>)
    requires Told(AfterActs(front), job, p, rs)
    ensures Told(Act1(AfterActs(front), a), job, PlanNext(p, AfterActs(front), a, job),
                 ReturnsNext(rs, AfterActs(front), a, job))
  {
    var s := AfterActs(front);
    InterleavingsKeepGood(front);
    FirstInFirstOut(front);
    InLineApart(s);
    if a.DoEnqueue? { NewestIsApart(s, a.provider, a.model); }
    ActTold(s, a, job, p, rs);
  }

  /**
   Every job is remembered for what happened to it. One that is finished had
   every dimension of its plan called and returned, in order, and then speed if
   and only if the plan misses it; what it is short of is what came back
   incomplete. One that was stopped or failed had some of that, from the start;
   one that was blocked, nothing.
   */
  lemma RememberedAsDeserved(acts: seq<Act>, i: nat)
    requires i < |AfterActs(acts).log|
    ensures var m := AfterActs(acts).log[i];
            Deserved(m.verdict, PlanOf(acts, m.job), ReturnsOf(Returned(acts), m.job))
  {
    HistoriesAreTold(acts, AfterActs(acts).log[i].job);
  }

  /** And the executor is never asked for anything but the next call of the plan in hand. */
  lemma PendingCallIsTheNext(acts: seq<Act>)
    requires AfterActs(acts).worker.Calling?
    ensures var s := AfterActs(acts);
            var p, calls := PlanOf(acts, s.worker.job), CallsOf(ReturnsOf(Returned(acts), s.worker.job));
            IsOpen(p) && calls + [s.worker.call] <= Asked(p.value.dimensions, p.value.speedMissing)
  {
    HistoriesAreTold(acts, AfterActs(acts).worker.job);
  }

  // ----- why a job ends ----------------------------------------------------------------------

  /** Somebody threw this error in this act: the executor, the planner, or the recalculation. */
  predicate Throws(a: Act, error: string) {
    match a
    case DoThrow(e) => e == error
    case DoReturn(_, recalc) => recalc == Some(error)
    case DoEnqueue(_, _, _, reply) => reply.plan == PlanThrew(error) || reply.recalc == Some(error)
    case DoResume(reply) => reply.plan == PlanThrew(error) || reply.recalc == Some(error)
    case _ => false
  }

  /** One act's new memories and its failure, if it has one, have their causes. */
  predicate HasCauses(s: State, a: Act, after: State) {
    && (forall i | |s.log| <= i < |after.log| ::
          && (after.log[i].verdict == Stopped ==> s.stopping)
          && (after.log[i].verdict.Failure? ==> s.worker == Throwing(after.log[i].job, after.log[i].verdict.error)))
    && (after.worker.Throwing? && after.worker != s.worker ==> Throws(a, after.worker.error))
  }

  lemma StartHasCauses(s: State, job: Job, reply: Reply)
    requires !s.stopping
    ensures var after := StartJob(s, job, reply);
            && s.log <= after.log
            && (forall i | |s.log| <= i < |after.log| ::
                  !after.log[i].verdict.Stopped? && !after.log[i].verdict.Failure?)
            && (after.worker.Throwing? ==>
                  reply.plan == PlanThrew(after.worker.error) || reply.recalc == Some(after.worker.error))
  {
  }

  lemma DrainHasCauses(s: State, reply: Reply)
    requires !s.stopping
    ensures var after := Drain(s, reply);
            && s.log <= after.log
            && (forall i | |s.log| <= i < |after.log| ::
                  !after.log[i].verdict.Stopped? && !after.log[i].verdict.Failure?)
            && (after.worker.Throwing? ==>
                  reply.plan == PlanThrew(after.worker.error) || reply.recalc == Some(after.worker.error))
  {
    if s.queue != [] { StartHasCauses(s.(queue := s.queue[1..]), s.queue[0], reply); }
  }

  /** A job is stopped only while a stop is pending, and fails only with an error that was thrown. */
  lemma EndsHaveCauses(acts: seq<Act>, a: Act)
    ensures HasCauses(AfterActs(acts), a, AfterActs(acts + [a]))
  {
    InterleavingsKeepGood(acts);
    OneMoreAct(acts, a);
    CausedBy(AfterActs(acts), a);
  }

  lemma CausedBy(s: State, a: Act)
    requires InStep(s)
    ensures HasCauses(s, a, Act1(s, a))
  {
    match a
    case DoEnqueue(p, m, plan, reply) =>
      if Accepts(s, a) && s.worker.Off? { DrainHasCauses(Queued(s, Job(|s.accepted|, p, m)), reply); }
    case DoResume(reply) => ResumeHasCauses(s, reply);
    case DoReturn(complete, recalc) => ReturnedCall(s, complete, recalc);
    case _ =>
  }

  lemma ResumeHasCauses(s: State, reply: Reply)
    requires InStep(s)
    ensures HasCauses(s, DoResume(reply), WorkerResumes(s, reply))
  {
    match s.worker
    case Between => if !s.stopping { DrainHasCauses(s, reply); }
    case Throwing(job, error) =>
      if !s.stopping { DrainHasCauses(Remember(s, job, Failure(error)), reply); }
    case _ =>
  }

  // ----- a stop ------------------------------------------------------------------------------

  /** A stop was asked for while a job was in hand, and the worker has not left its loop since. */
  predicate StopPending(acts: seq<Act>) {
    acts != [] &&
    var front := acts[..|acts| - 1];
    if acts[|acts| - 1].DoStop? then AfterActs(front).current != None || StopPending(front)
    else StopPending(front) && !AfterActs(acts).worker.Leaving?
  }

  lemma StoppingStarts(s: State, job: Job, reply: Reply)
    ensures StartJob(s, job, reply).stopping == s.stopping && !StartJob(s, job, reply).worker.Leaving?
  {
  }

  lemma StoppingResumes(s: State, reply: Reply)
    requires InStep(s)
    ensures var after := Act1(s, DoResume(reply)); after.stopping <==> s.stopping && !after.worker.Leaving?
  {
    if s.queue != [] {
      StoppingStarts(s.(queue := s.queue[1..]), s.queue[0], reply);
      if s.worker.Throwing? {
        var caught := Remember(s, s.worker.job, Failure(s.worker.error));
        StoppingStarts(caught.(queue := s.queue[1..]), s.queue[0], reply);
      }
    }
  }

  lemma StoppingStep(s: State, a: Act)
    requires InStep(s)
    ensures var after := Act1(s, a);
            after.stopping <==>
            if a.DoStop? then s.current != None || s.stopping else s.stopping && !after.worker.Leaving?
  {
    match a
    case DoEnqueue(p, m, plan, reply) =>
      if Accepts(s, a) && s.worker.Off? {
        var queued := Queued(s, Job(|s.accepted|, p, m));
        StoppingStarts(queued.(queue := queued.queue[1..]), queued.queue[0], reply);
      }
    case DoResume(reply) => StoppingResumes(s, reply);
    case DoReturn(complete, recalc) => ReturnedCall(s, complete, recalc);
    case _ =>
  }

  lemma {:induction false} StoppingIsPending(acts: seq<Act>)
    ensures AfterActs(acts).stopping <==> StopPending(acts)
  {
    if acts != [] {
      StoppingIsPending(acts[..|acts| - 1]);
      InterleavingsKeepGood(acts[..|acts| - 1]);
      StoppingStep(AfterActs(acts[..|acts| - 1]), acts[|acts| - 1]);
    }
  }

  /** While a stop is pending, and only then, the runner says so; and it starts no call, whatever happens next. */
  lemma StopIsHonoured(acts: seq<Act>, a: Act)
    ensures PublicState(AfterActs(acts)) == Stopping <==> StopPending(acts)
    ensures StopPending(acts) ==> StartsNoCall(AfterActs(acts), AfterActs(acts + [a]))
    ensures AfterActs(acts + [DoStop]).queue == []
  {
    StoppingIsPending(acts);
    OneMoreAct(acts, DoStop);
    if StopPending(acts) { StopStartsNoCall(acts, a); }
  }

  // ----- what a caller is told ------------------------------------------------------------------

  /** A request is accepted exactly when it can be planned, nothing blocks it, and nobody has asked for it yet. */
  lemma AcceptedExactly(s: State, provider: string, model: string, plan: Plan)
    ensures EnqueueAnswer(s, provider, model, plan).Accepted? <==>
            && plan.Plan? && plan.blocked == None
            && (forall i | 0 <= i < |s.queue| :: !(s.queue[i].provider == provider && s.queue[i].model == model))
            && !(s.current != None && s.current.value.provider == provider && s.current.value.model == model)
    ensures EnqueueAnswer(s, provider, model, plan).Refused? <==> plan.Plan? && plan.blocked != None
    ensures forall why :: EnqueueAnswer(s, provider, model, plan) == Refused(why) ==> plan.blocked == Some(why)
    ensures forall e :: EnqueueAnswer(s, provider, model, plan) == Threw(e) <==> plan == PlanThrew(e)
  {
    assert (exists j | j in s.queue :: Wants(j, provider, model)) <==>
           (exists i :: 0 <= i < |s.queue| && Wants(s.queue[i], provider, model));
  }

  /** The position answered is the job's place among the one in hand and those waiting. */
  lemma PositionIsPlace(s: State, provider: string, model: string, plan: Plan)
    requires EnqueueAnswer(s, provider, model, plan).Accepted?
    ensures var job := Job(|s.accepted|, provider, model);
            var line := Held(s.current) + Queued(s, job).queue;
            var n := EnqueueAnswer(s, provider, model, plan).position;
            0 < n == |line| && line[n - 1] == job
  {
  }

  /** What the runner shows of the past is its last ten endings, newest first. */
  lemma RecentIsNewest(acts: seq<Act>)
    ensures var s := AfterActs(acts);
            && |s.recent| == (if |s.log| < 10 then |s.log| else 10)
            && forall i | 0 <= i < |s.recent| :: s.recent[i] == s.log[|s.log| - 1 - i]
  {
    InterleavingsKeepGood(acts);
    LatestIsNewest(AfterActs(acts).log);
  }

  lemma {:induction false} ReversedAt(log: seq<Memory>, i: nat)
    requires i < |log|
    ensures |Reversed(log)| == |log| && Reversed(log)[i] == log[|log| - 1 - i]
  {
    if i > 0 { ReversedAt(log[..|log| - 1], i - 1); } else if |log| > 1 { ReversedAt(log[..|log| - 1], 0); }
  }

  lemma LatestIsNewest(log: seq<Memory>)
    ensures |Latest(log)| == (if |log| < 10 then |log| else 10)
    ensures forall i | 0 <= i < |Latest(log)| :: Latest(log)[i] == log[|log| - 1 - i]
  {
    if log != [] { ReversedAt(log, 0); }
    forall i | 0 <= i < |log| ensures Reversed(log)[i] == log[|log| - 1 - i] && |Reversed(log)| == |log| {
      ReversedAt(log, i);
    }
  }
}
