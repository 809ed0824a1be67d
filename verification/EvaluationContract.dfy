/**
 What callers of the evaluation queue may rely on, over every interleaving of
 calls, answers, throws and worker stretches.
 */
module EvaluationContract {
  import opened EvaluationQueue
  import opened Wrappers

  // ----- what every interleaving keeps ---------------------------------------------

  function Jobs(log: seq<Memory>): seq<Job> { seq(|log|, i requires 0 <= i < |log| => log[i].job) }

  function Held(c: Option<Job>): seq<Job> { if c.Some? then [c.value] else [] }

  /** A job that could not be planned, on its way to the catch that will remember it. */
  function InTransit(s: State): seq<Job> { if s.worker.Throwing? && s.current.None? then [s.worker.job] else [] }

  /** The jobs in the runner's own fields and in its history. */
  function Whereabouts(s: State): multiset<Job> {
    multiset(s.queue) + multiset(Held(s.current)) + multiset(Jobs(s.log)) + multiset(s.cleared)
  }

  /** Everything accepted, by where it is now. */
  function Everywhere(s: State): multiset<Job> { Whereabouts(s) + multiset(InTransit(s)) }

  function Offer(j: Job): (string, string) { (j.provider, j.model) }

  ghost predicate NoOfferTwice(js: seq<Job>) {
    forall i, j | 0 <= i < j < |js| :: Offer(js[i]) != Offer(js[j])
  }

  ghost predicate InStep(s: State) {
    match s.worker
    case Off => s.current.None? && !s.stopping
    case Leaving => s.current.None? && !s.stopping
    case Calling(job, _, _, _, _) => s.current == Some(job)
    case Throwing(job, _) => s.current == None || s.current == Some(job)
    case Between => s.current.None?
  }

  /** The accepted jobs, numbered in order, are just the jobs that are somewhere. */
  ghost predicate Accounted(s: State) { Everywhere(s) == multiset(s.accepted) && Numbered(s) }

  ghost predicate Numbered(s: State) { forall i | 0 <= i < |s.accepted| :: s.accepted[i].ticket == i }

  function Reversed(log: seq<Memory>): seq<Memory> {
    if log == [] then [] else [log[|log| - 1]] + Reversed(log[..|log| - 1])
  }

  function Latest(log: seq<Memory>): seq<Memory> {
    var r := Reversed(log);
    if |r| <= RECENT_LIMIT then r else r[..RECENT_LIMIT]
  }

  ghost predicate Good(s: State) {
    && InStep(s)
    && NoOfferTwice(s.queue + Held(s.current))
    && Accounted(s)
    && s.recent == Latest(s.log)
  }

  // ----- moving one job ---------------------------------------------------------------

  lemma JobsAppend(log: seq<Memory>, m: Memory)
    ensures Jobs(log + [m]) == Jobs(log) + [m.job]
  {
  }

  /** A job that ends moves to the log from the executor, or from nowhere if it never became current. */
  lemma RememberMoves(s: State, job: Job, v: Verdict)
    requires s.current.Some? ==> s.current.value == job
    ensures Whereabouts(Remember(s, job, v)) == Whereabouts(s) + if s.current.Some? then multiset{} else multiset{job}
  {
    JobsAppend(s.log, Memory(job, v));
  }

  lemma RememberIsRecent(s: State, job: Job, v: Verdict)
    requires s.recent == Latest(s.log)
    ensures Remember(s, job, v).recent == Latest(Remember(s, job, v).log)
  {
    var after := Remember(s, job, v);
    assert after.log[..|after.log| - 1] == s.log;
    assert Reversed(after.log) == [Memory(job, v)] + Reversed(s.log);
  }

  /** What the worker's stretches share: nothing is lost, nothing is queued, and the worker waits in step. */
  ghost predicate Moved(s: State, after: State, job: Job) {
    && after.recent == Latest(after.log)
    && !after.worker.Off? && InStep(after)
    && (after.current == None || after.current == Some(job))
    && after.queue == s.queue && after.accepted == s.accepted && after.stopping == s.stopping
  }

  lemma Ended(s: State, job: Job, v: Verdict)
    requires s.current.Some? ==> s.current.value == job
    requires s.recent == Latest(s.log)
    ensures var after := Remember(s, job, v).(worker := Between);
            && Moved(s, after, job)
            && Whereabouts(after) == Whereabouts(s) + if s.current.Some? then multiset{} else multiset{job}
  {
    RememberMoves(s, job, v);
    RememberIsRecent(s, job, v);
  }

  lemma ConcludeMoves(s: State, job: Job, done: seq<Result>, recalc: Option<string>)
    requires s.current == Some(job) && s.recent == Latest(s.log)
    ensures var after := Conclude(s, job, done, recalc);
            Moved(s, after, job) && Everywhere(after) == Whereabouts(s)
  {
    if recalc.None? {
      Ended(s, job, Finished(Short(done)));
      NoneInTransit(Conclude(s, job, done, recalc));
    } else {
      NoneInTransit(Conclude(s, job, done, recalc));
      assert Whereabouts(Conclude(s, job, done, recalc)) == Whereabouts(s);
    }
  }

  lemma NoneInTransit(s: State)
    requires !s.worker.Throwing? || s.current.Some?
    ensures Everywhere(s) == Whereabouts(s)
  {
  }

  lemma ProceedMoves(s: State, job: Job, dims: seq<string>, speedLeft: bool, done: seq<Result>, recalc: Option<string>)
    requires s.current == Some(job) && s.recent == Latest(s.log)
    ensures var after := Proceed(s, job, dims, speedLeft, done, recalc);
            Moved(s, after, job) && Everywhere(after) == Whereabouts(s)
  {
    var after := Proceed(s, job, dims, speedLeft, done, recalc);
    if s.stopping {
      Ended(s, job, Stopped);
      NoneInTransit(after);
    } else if dims == [] && !speedLeft {
      ConcludeMoves(s, job, done, recalc);
    } else {
      NoneInTransit(after);
      assert Whereabouts(after) == Whereabouts(s);
    }
  }

  /** Starting a job moves it to the executor, straight to the log, or to the catch. */
  lemma StartMoves(s: State, job: Job, reply: Reply)
    requires s.current.None? && s.recent == Latest(s.log)
    ensures var after := StartJob(s, job, reply);
            Moved(s, after, job) && Everywhere(after) == Whereabouts(s) + multiset{job}
  {
    var after := StartJob(s, job, reply);
    match reply.plan
    case PlanThrew(error) =>
      assert Whereabouts(after) == Whereabouts(s) && InTransit(after) == [job];
    case Plan(blocked, dimensions, speedMissing) =>
      if blocked.Some? {
        Ended(s, job, Blocked(blocked.value));
        NoneInTransit(after);
      } else {
        var started := s.(current := Some(job));
        ProceedMoves(started, job, dimensions, speedMissing, [], reply.recalc);
        assert Whereabouts(started) == Whereabouts(s) + multiset{job};
      }
  }

  lemma HeadLeaves(s: State, rest: State)
    requires s.queue != [] && rest == s.(queue := s.queue[1..])
    ensures Whereabouts(s) == Whereabouts(rest) + multiset{s.queue[0]}
  {
    assert s.queue == [s.queue[0]] + s.queue[1..];
  }

  lemma TailHasNoOfferTwice(q: seq<Job>, c: Option<Job>)
    requires q != [] && NoOfferTwice(q) && (c.Some? ==> c.value == q[0])
    ensures NoOfferTwice(q[1..] + Held(c))
  {
    var tail := q[1..] + Held(c);
    forall i, j | 0 <= i < j < |tail| ensures Offer(tail[i]) != Offer(tail[j]) {
      assert tail[i] == q[i + 1];
      assert if j < |q| - 1 then tail[j] == q[j + 1] else tail[j] == q[0];
    }
  }

  /** The drain loop from its test, reached with no job current and no stop pending. */
  lemma DrainKeeps(s: State, reply: Reply)
    requires s.current.None? && !s.stopping && s.recent == Latest(s.log) && NoOfferTwice(s.queue)
    requires Whereabouts(s) == multiset(s.accepted) && Numbered(s)
    ensures Good(Drain(s, reply))
  {
    if s.queue != [] {
      var rest := s.(queue := s.queue[1..]);
      HeadLeaves(s, rest);
      StartMoves(rest, s.queue[0], reply);
      TailHasNoOfferTwice(s.queue, Drain(s, reply).current);
    } else {
      assert Whereabouts(Drain(s, reply)) == Whereabouts(s);
      NoneInTransit(Drain(s, reply));
    }
  }

  lemma QueueingCounts(s: State, job: Job)
    requires Everywhere(s) == multiset(s.accepted)
    ensures Everywhere(Queued(s, job)) == multiset(Queued(s, job).accepted)
  {
    assert multiset(s.queue + [job]) == multiset(s.queue) + multiset{job};
    assert multiset(s.accepted + [job]) == multiset(s.accepted) + multiset{job};
    assert InTransit(Queued(s, job)) == InTransit(s);
  }

  lemma QueueingRepeatsNoOffer(s: State, job: Job)
    requires NoOfferTwice(s.queue + Held(s.current)) && !Pending(s, job.provider, job.model)
    ensures NoOfferTwice(Queued(s, job).queue + Held(s.current))
  {
    forall i | 0 <= i < |s.queue| ensures Offer(s.queue[i]) != Offer(job) {
      assert s.queue[i] in s.queue && !Wants(s.queue[i], job.provider, job.model);
    }
    NewOfferIsNew(s.queue, Held(s.current), job);
  }

  lemma NewOfferIsNew(q: seq<Job>, held: seq<Job>, job: Job)
    requires NoOfferTwice(q + held)
    requires forall i | 0 <= i < |q| :: Offer(q[i]) != Offer(job)
    requires forall i | 0 <= i < |held| :: Offer(held[i]) != Offer(job)
    ensures NoOfferTwice(q + [job] + held)
  {
    var was, now := q + held, q + [job] + held;
    forall i, j | 0 <= i < j < |now| ensures Offer(now[i]) != Offer(now[j]) {
      if i != |q| && j != |q| {
        assert now[i] == was[if i < |q| then i else i - 1] && now[j] == was[if j < |q| then j else j - 1];
      }
    }
  }

  /** A job queued behind a worker that will take it up, or will have left. */
  lemma QueuedKeeps(s: State, job: Job)
    requires Good(s) && job.ticket == |s.accepted| && !Pending(s, job.provider, job.model)
    ensures Good(Queued(s, job))
  {
    QueueingCounts(s, job);
    QueueingRepeatsNoOffer(s, job);
  }

  lemma StartingKeeps(s: State, reply: Reply)
    requires Good(s) && s.worker.Off?
    ensures Good(Drain(s, reply))
  {
    QueueRepeatsNoOffer(s.queue, Held(s.current));
    NoneInTransit(s);
    DrainKeeps(s, reply);
  }

  lemma EnqueueKeeps(s: State, provider: string, model: string, plan: Plan, reply: Reply)
    requires Good(s)
    ensures Good(Act1(s, DoEnqueue(provider, model, plan, reply)))
  {
    if EnqueueAnswer(s, provider, model, plan).Accepted? {
      var job := Job(|s.accepted|, provider, model);
      QueuedKeeps(s, job);
      if s.worker.Off? { StartingKeeps(Queued(s, job), reply); }
    }
  }

  lemma ClearingKeeps(s: State)
    ensures Whereabouts(s.(queue := [], cleared := s.cleared + s.queue)) == Whereabouts(s)
  {
  }

  lemma StopKeeps(s: State)
    requires Good(s)
    ensures Good(Act1(s, DoStop))
  {
    ClearingKeeps(s);
    assert Whereabouts(Stop(s)) == Whereabouts(s.(queue := [], cleared := s.cleared + s.queue));
    assert InTransit(Stop(s)) == InTransit(s);
  }

  lemma ProceedKeeps(s: State, job: Job, dims: seq<string>, speedLeft: bool, done: seq<Result>, recalc: Option<string>)
    requires Good(s) && s.current == Some(job) && !s.worker.Throwing?
    ensures Good(Proceed(s, job, dims, speedLeft, done, recalc))
  {
    ProceedMoves(s, job, dims, speedLeft, done, recalc);
    MovedKeeps(s, Proceed(s, job, dims, speedLeft, done, recalc), job);
  }

  lemma ConcludeKeeps(s: State, job: Job, done: seq<Result>, recalc: Option<string>)
    requires Good(s) && s.current == Some(job) && !s.worker.Throwing?
    ensures Good(Conclude(s, job, done, recalc))
  {
    ConcludeMoves(s, job, done, recalc);
    MovedKeeps(s, Conclude(s, job, done, recalc), job);
  }

  lemma ReturnedCall(s: State, complete: bool, recalc: Option<string>)
    ensures var after := Act1(s, DoReturn(complete, recalc));
            match s.worker
            case Calling(job, Dimension(name), rest, speedLeft, done) =>
              after == Proceed(s, job, rest, speedLeft, done + [Result(name, complete)], recalc)
            case Calling(job, Speed, _, _, done) => after ==
              Conclude(s, job, done + [Result("speed", complete)], recalc)
            case _ => after == s
  {
  }

  lemma ReturnKeeps(s: State, complete: bool, recalc: Option<string>)
    requires Good(s)
    ensures Good(Act1(s, DoReturn(complete, recalc)))
  {
    ReturnedCall(s, complete, recalc);
    match s.worker
    case Calling(job, Dimension(name), rest, speedLeft, done) =>
      ProceedKeeps(s, job, rest, speedLeft, done + [Result(name, complete)], recalc);
    case Calling(job, Speed, _, _, done) =>
      ConcludeKeeps(s, job, done + [Result("speed", complete)], recalc);
    case _ =>
  }

  /** A stretch of the worker with a job current keeps everything. */
  lemma MovedKeeps(s: State, after: State, job: Job)
    requires Good(s) && s.current == Some(job) && !s.worker.Throwing?
    requires Moved(s, after, job) && Everywhere(after) == Whereabouts(s)
    ensures Good(after)
  {
    NoneInTransit(s);
    FewerHeld(s, after);
  }

  lemma FewerHeld(s: State, after: State)
    requires NoOfferTwice(s.queue + Held(s.current)) && after.queue == s.queue
    requires after.current == None || after.current == s.current
    ensures NoOfferTwice(after.queue + Held(after.current))
  {
    var was, now := s.queue + Held(s.current), after.queue + Held(after.current);
    assert now == was[..|now|];
  }

  lemma AfterJobKeeps(s: State, reply: Reply)
    requires s.current.None? && s.recent == Latest(s.log) && NoOfferTwice(s.queue)
    requires Whereabouts(s) == multiset(s.accepted) && Numbered(s)
    ensures Good(AfterJob(s, reply))
  {
    if s.stopping {
      ClearingKeeps(s);
      assert Whereabouts(AfterJob(s, reply)) == Whereabouts(s.(queue := [], cleared := s.cleared + s.queue));
      NoneInTransit(AfterJob(s, reply));
    } else {
      DrainKeeps(s, reply);
    }
  }

  /** The catch: a failed job moves to the log, from the executor or from its way there. */
  lemma CatchMoves(s: State, job: Job, error: string)
    requires s.worker == Throwing(job, error) && (s.current.Some? ==> s.current.value == job)
    ensures Whereabouts(Remember(s, job, Failure(error))) == Everywhere(s)
  {
    RememberMoves(s, job, Failure(error));
  }

  lemma QueueRepeatsNoOffer(q: seq<Job>, held: seq<Job>)
    requires NoOfferTwice(q + held)
    ensures NoOfferTwice(q)
  {
    assert q == (q + held)[..|q|];
  }

  lemma ResumeKeeps(s: State, reply: Reply)
    requires Good(s)
    ensures Good(Act1(s, DoResume(reply)))
  {
    QueueRepeatsNoOffer(s.queue, Held(s.current));
    match s.worker
    case Between =>
      NoneInTransit(s);
      AfterJobKeeps(s, reply);
    case Throwing(job, error) =>
      var failed := Remember(s, job, Failure(error));
      CatchMoves(s, job, error);
      RememberIsRecent(s, job, Failure(error));
      AfterJobKeeps(failed, reply);
    case _ =>
  }

  lemma ThrowKeeps(s: State, error: string)
    requires Good(s)
    ensures Good(Act1(s, DoThrow(error)))
  {
    assert Whereabouts(CallThrows(s, error)) == Whereabouts(s);
    if s.worker.Calling? {
      NoneInTransit(s);
      NoneInTransit(CallThrows(s, error));
    }
  }

  lemma ReleaseKeeps(s: State)
    requires Good(s)
    ensures Good(Act1(s, DoRelease))
  {
    assert Whereabouts(Release(s)) == Whereabouts(s) && InTransit(Release(s)) == InTransit(s);
  }

  lemma ActKeeps(s: State, a: Act)
    requires Good(s)
    ensures Good(Act1(s, a))
  {
    match a
    case DoEnqueue(p, m, plan, reply) => EnqueueKeeps(s, p, m, plan, reply);
    case DoStop => StopKeeps(s);
    case DoReturn(complete, recalc) => ReturnKeeps(s, complete, recalc);
    case DoThrow(error) => ThrowKeeps(s, error);
    case DoResume(reply) => ResumeKeeps(s, reply);
    case DoRelease => ReleaseKeeps(s);
  }

  lemma {:induction false} InterleavingsKeepGood(acts: seq<Act>)
    ensures Good(AfterActs(acts))
  {
    if acts != [] {
      var s, a := AfterActs(acts[..|acts| - 1]), acts[|acts| - 1];
      InterleavingsKeepGood(acts[..|acts| - 1]);
      ActKeeps(s, a);
    }
  }

  // ----- the promises -----------------------------------------------------------------

  lemma {:induction false} TicketsAppearOnce(js: seq<Job>, i: nat)
    requires forall k | 0 <= k < |js| :: js[k].ticket == k
    requires i < |js|
    ensures multiset(js)[js[i]] == 1
  {
    var front, last := js[..|js| - 1], js[|js| - 1];
    assert js == front + [last];
    if i < |js| - 1 {
      TicketsAppearOnce(front, i);
    } else {
      assert last !in front;
    }
  }

  /**
   Every accepted job is queued, in flight, remembered, cleared by a stop, or
   could not be planned and is about to be remembered: one of them, once.
   */
  lemma EachJobIsInOnePlace(acts: seq<Act>, i: nat)
    requires i < |AfterActs(acts).accepted|
    ensures var s := AfterActs(acts);
            var job := s.accepted[i];
            multiset(s.queue)[job] + multiset(Held(s.current))[job]
            + multiset(Jobs(s.log))[job] + multiset(s.cleared)[job] + multiset(InTransit(s))[job] == 1
  {
    InterleavingsKeepGood(acts);
    TicketsAppearOnce(AfterActs(acts).accepted, i);
  }

  /**
   The runner calls itself idle only with no executor call in flight, a worker
   that has left leaves neither a current job nor a stop behind, and no offer is
   pending twice.
   */
  lemma IdleExcludesMeasuring(acts: seq<Act>)
    ensures var s := AfterActs(acts);
            && (PublicState(s) == Idle ==> !s.worker.Calling?)
            && (s.worker.Off? || s.worker.Leaving? ==> s.current.None? && !s.stopping && PublicState(s) == Idle)
            && NoOfferTwice(s.queue + Held(s.current))
            && s.recent == Latest(s.log)
  {
    InterleavingsKeepGood(acts);
  }

  /** What an act may do while a stop is pending. */
  predicate StartsNoCall(s: State, after: State) {
    && (after.worker.Calling? ==> after.worker == s.worker)
    && (after.current == None || after.current == s.current)
    && (after.stopping || after.worker.Leaving?)
  }

  lemma StoppingStep(s: State, a: Act)
    requires InStep(s) && s.stopping
    ensures StartsNoCall(s, Act1(s, a))
  {
  }

  /** From the moment a stop is seen, no executor call is started: not for this job, not for another. */
  lemma StopStartsNoCall(acts: seq<Act>, a: Act)
    requires AfterActs(acts).stopping
    ensures StartsNoCall(AfterActs(acts), AfterActs(acts + [a]))
  {
    assert (acts + [a])[..|acts|] == acts;
    InterleavingsKeepGood(acts);
    StoppingStep(AfterActs(acts), a);
  }

  // ----- first in, first out -------------------------------------------------------------

  /** The jobs in the order they leave the queue: ended, in flight or about to be remembered, waiting. */
  function Line(s: State): seq<Job> {
    Jobs(s.log) + (Held(s.current) + InTransit(s)) + s.queue
  }

  /** The line when nobody is in flight. */
  function Waiting(s: State): seq<Job> { Jobs(s.log) + s.queue }

  ghost predicate InTicketOrder(js: seq<Job>) {
    forall i, j | 0 <= i < j < |js| :: js[i].ticket < js[j].ticket
  }

  lemma RememberKeepsLine(s: State, job: Job, v: Verdict)
    ensures Waiting(Remember(s, job, v)) == Jobs(s.log) + [job] + s.queue
  {
    JobsAppend(s.log, Memory(job, v));
  }

  lemma NobodyInFlight(s: State)
    requires s.current.None? && !s.worker.Throwing?
    ensures Line(s) == Waiting(s)
  {
  }

  lemma ConcludeKeepsLine(s: State, job: Job, done: seq<Result>, recalc: Option<string>)
    requires s.current == Some(job)
    ensures Line(Conclude(s, job, done, recalc)) == Jobs(s.log) + [job] + s.queue
  {
    if recalc.None? {
      RememberKeepsLine(s, job, Finished(Short(done)));
      NobodyInFlight(Conclude(s, job, done, recalc));
    }
  }

  lemma ProceedKeepsLine(s: State, job: Job, dims: seq<string>, speedLeft: bool,
    done: seq<Result>, recalc: Option<string>)
    requires s.current == Some(job)
    ensures Line(Proceed(s, job, dims, speedLeft, done, recalc)) == Jobs(s.log) + [job] + s.queue
  {
    if s.stopping {
      RememberKeepsLine(s, job, Stopped);
      NobodyInFlight(Proceed(s, job, dims, speedLeft, done, recalc));
    } else if dims == [] && !speedLeft {
      ConcludeKeepsLine(s, job, done, recalc);
    }
  }

  lemma StartKeepsLine(s: State, job: Job, reply: Reply)
    requires s.current.None?
    ensures Line(StartJob(s, job, reply)) == Jobs(s.log) + [job] + s.queue
  {
    match reply.plan
    case PlanThrew(error) =>
    case Plan(blocked, dimensions, speedMissing) =>
      if blocked.Some? {
        RememberKeepsLine(s, job, Blocked(blocked.value));
        NobodyInFlight(StartJob(s, job, reply));
      } else {
        ProceedKeepsLine(s.(current := Some(job)), job, dimensions, speedMissing, [], reply.recalc);
      }
  }

  lemma DrainKeepsLine(s: State, reply: Reply)
    requires s.current.None?
    ensures Line(Drain(s, reply)) == Waiting(s)
  {
    if s.queue != [] {
      StartKeepsLine(s.(queue := s.queue[1..]), s.queue[0], reply);
      assert s.queue == [s.queue[0]] + s.queue[1..];
    } else {
      NobodyInFlight(Drain(s, reply));
    }
  }

  lemma AfterJobShortensLine(s: State, reply: Reply)
    requires s.current.None?
    ensures Line(AfterJob(s, reply)) <= Waiting(s)
  {
    if s.stopping { NobodyInFlight(AfterJob(s, reply)); } else { DrainKeepsLine(s, reply); }
  }

  lemma EnqueueOnLine(s: State, p: string, m: string, plan: Plan, reply: Reply)
    requires InStep(s)
    ensures Line(Enqueued(s, p, m, plan, reply)) == Line(s)
         || Line(Enqueued(s, p, m, plan, reply)) == Line(s) + [Job(|s.accepted|, p, m)]
  {
    if EnqueueAnswer(s, p, m, plan).Accepted? {
      var q := Queued(s, Job(|s.accepted|, p, m));
      assert Line(q) == Line(s) + [Job(|s.accepted|, p, m)];
      if s.worker.Off? {
        NobodyInFlight(q);
        DrainKeepsLine(q, reply);
      }
    }
  }

  lemma ReturnOnLine(s: State, complete: bool, recalc: Option<string>)
    requires InStep(s)
    ensures Line(CallReturns(s, complete, recalc)) == Line(s)
  {
    match s.worker
    case Calling(job, Dimension(name), rest, speedLeft, done) =>
      ProceedKeepsLine(s, job, rest, speedLeft, done + [Result(name, complete)], recalc);
      assert Held(s.current) + InTransit(s) == [job];
    case Calling(job, Speed, _, _, done) =>
      ConcludeKeepsLine(s, job, done + [Result("speed", complete)], recalc);
      assert Held(s.current) + InTransit(s) == [job];
    case _ =>
  }

  lemma ThrowOnLine(s: State, error: string)
    requires InStep(s)
    ensures Line(CallThrows(s, error)) == Line(s)
  {
  }

  lemma ResumeOnLine(s: State, reply: Reply)
    requires InStep(s)
    ensures Line(WorkerResumes(s, reply)) <= Line(s)
  {
    match s.worker
    case Between =>
      NobodyInFlight(s);
      AfterJobShortensLine(s, reply);
    case Throwing(job, error) =>
      assert Held(s.current) + InTransit(s) == [job];
      RememberKeepsLine(s, job, Failure(error));
      AfterJobShortensLine(Remember(s, job, Failure(error)), reply);
    case _ =>
  }

  /** Each act leaves the line as it is, cuts its waiting end off, or adds a newer ticket to it. */
  lemma ActOnLine(s: State, a: Act)
    requires InStep(s)
    ensures || Line(Act1(s, a)) <= Line(s)
            || (a.DoEnqueue? && Line(Act1(s, a)) == Line(s) + [Job(|s.accepted|, a.provider, a.model)])
  {
    match a
    case DoEnqueue(p, m, plan, reply) => EnqueueOnLine(s, p, m, plan, reply);
    case DoStop => assert InTransit(Stop(s)) == InTransit(s);
    case DoReturn(complete, recalc) => ReturnOnLine(s, complete, recalc);
    case DoThrow(error) => ThrowOnLine(s, error);
    case DoResume(reply) => ResumeOnLine(s, reply);
    case DoRelease => assert InTransit(Release(s)) == InTransit(s);
  }

  lemma TicketsAreIssued(s: State, j: Job)
    requires Accounted(s) && j in Line(s)
    ensures j.ticket < |s.accepted|
  {
    assert j in Everywhere(s);
    assert j in s.accepted;
  }

  lemma LineIsIssued(s: State)
    requires Accounted(s)
    ensures forall i | 0 <= i < |Line(s)| :: Line(s)[i].ticket < |s.accepted|
  {
    forall i | 0 <= i < |Line(s)| ensures Line(s)[i].ticket < |s.accepted| {
      TicketsAreIssued(s, Line(s)[i]);
    }
  }

  lemma NewestGoesLast(js: seq<Job>, j: Job)
    requires InTicketOrder(js) && forall i | 0 <= i < |js| :: js[i].ticket < j.ticket
    ensures InTicketOrder(js + [j])
  {
  }

  lemma OrderStep(s: State, a: Act)
    requires Good(s) && InTicketOrder(Line(s))
    ensures InTicketOrder(Line(Act1(s, a)))
  {
    ActOnLine(s, a);
    if !(Line(Act1(s, a)) <= Line(s)) {
      LineIsIssued(s);
      NewestGoesLast(Line(s), Job(|s.accepted|, a.provider, a.model));
    }
  }

  /** Jobs are taken up in the order they were accepted, whatever stops and failures come between. */
  lemma {:induction false} FirstInFirstOut(acts: seq<Act>)
    ensures InTicketOrder(Line(AfterActs(acts)))
  {
    if acts != [] {
      FirstInFirstOut(acts[..|acts| - 1]);
      InterleavingsKeepGood(acts[..|acts| - 1]);
      OrderStep(AfterActs(acts[..|acts| - 1]), acts[|acts| - 1]);
    }
  }

  // ----- a job that nobody takes up ---------------------------------------------------------

  /** Jobs wait, and no worker will look at them. */
  predicate Stranded(s: State) { s.worker.Off? && s.queue != [] }

  /** Jobs wait behind a worker that has left but still counts as running. */
  predicate Waits(s: State) { s.worker.Leaving? && s.queue != [] }

  predicate Accepts(s: State, a: Act) {
    a.DoEnqueue? && EnqueueAnswer(s, a.provider, a.model, a.plan).Accepted?
  }

  lemma WaitStep(s: State, a: Act)
    ensures Waits(Act1(s, a)) <==>
            (Waits(s) && !a.DoStop? && !a.DoRelease?) || (s.worker.Leaving? && Accepts(s, a))
  {
  }

  lemma StrandStep(s: State, a: Act)
    ensures Stranded(Act1(s, a)) <==>
            (Waits(s) && a.DoRelease?) || (Stranded(s) && !a.DoStop? && !Accepts(s, a))
  {
  }

  /** The i-th act had a job accepted behind a worker that had left, and no stop has dropped it since. */
  ghost predicate QueuedLate(acts: seq<Act>, i: nat) {
    && i < |acts|
    && AfterActs(acts[..i]).worker.Leaving? && Accepts(AfterActs(acts[..i]), acts[i])
    && forall k | i < k < |acts| :: !acts[k].DoStop?
  }

  /** The worker that was leaving at `i` is released by the j-th act. */
  predicate ReleasedAt(acts: seq<Act>, i: nat, j: nat) {
    i < j < |acts| && acts[j].DoRelease? && forall k | i < k < j :: !acts[k].DoRelease?
  }

  ghost predicate LeftWaiting(acts: seq<Act>, i: nat) {
    QueuedLate(acts, i) && forall k | i < k < |acts| :: !acts[k].DoRelease?
  }

  ghost predicate NoneAccepted(acts: seq<Act>, j: nat) {
    forall k | j < k < |acts| :: !Accepts(AfterActs(acts[..k]), acts[k])
  }

  ghost predicate LeftStranded(acts: seq<Act>, i: nat, j: nat) {
    QueuedLate(acts, i) && ReleasedAt(acts, i, j) && NoneAccepted(acts, j)
  }

  /** The acts before the last are those of the shorter history. */
  lemma Shorter(acts: seq<Act>, k: nat)
    requires acts != [] && k < |acts|
    ensures var front := acts[..|acts| - 1];
            front + [acts[|front|]] == acts && acts[..k] == front[..k] && (k < |front| ==> acts[k] == front[k])
  {
  }

  lemma WaitingGoesOn(acts: seq<Act>, i: nat)
    requires acts != [] && i < |acts| - 1
    ensures var front, a := acts[..|acts| - 1], acts[|acts| - 1];
            LeftWaiting(acts, i) <==> LeftWaiting(front, i) && !a.DoStop? && !a.DoRelease?
  {
    Shorter(acts, i);
    var front := acts[..|acts| - 1];
    assert forall k | i < k < |front| :: acts[k] == front[k];
  }

  ghost predicate SomeLeftWaiting(acts: seq<Act>) { exists i: nat :: LeftWaiting(acts, i) }

  ghost predicate SomeLeftStranded(acts: seq<Act>) { exists i: nat, j: nat :: LeftStranded(acts, i, j) }

  lemma LeftWaitingStep(acts: seq<Act>)
    requires acts != []
    ensures var front, a := acts[..|acts| - 1], acts[|acts| - 1];
            SomeLeftWaiting(acts) <==>
            || (SomeLeftWaiting(front) && !a.DoStop? && !a.DoRelease?)
            || (AfterActs(front).worker.Leaving? && Accepts(AfterActs(front), a))
  {
    var front, a := acts[..|acts| - 1], acts[|acts| - 1];
    if i: nat :| LeftWaiting(front, i) { WaitingGoesOn(acts, i); }
    if i: nat :| LeftWaiting(acts, i) {
      if i < |front| { WaitingGoesOn(acts, i); }
    }
    if AfterActs(front).worker.Leaving? && Accepts(AfterActs(front), a) { assert LeftWaiting(acts, |front|); }
  }

  lemma {:induction false} WaitingExactly(acts: seq<Act>)
    ensures Waits(AfterActs(acts)) <==> SomeLeftWaiting(acts)
  {
    if acts != [] {
      WaitingExactly(acts[..|acts| - 1]);
      LeftWaitingStep(acts);
      WaitStep(AfterActs(acts[..|acts| - 1]), acts[|acts| - 1]);
    }
  }

  lemma LateGoesOn(acts: seq<Act>, i: nat)
    requires acts != [] && i < |acts| - 1
    ensures QueuedLate(acts, i) <==> QueuedLate(acts[..|acts| - 1], i) && !acts[|acts| - 1].DoStop?
  {
    Shorter(acts, i);
    var front := acts[..|acts| - 1];
    assert forall k | i < k < |front| :: acts[k] == front[k];
  }

  lemma ReleaseGoesOn(acts: seq<Act>, i: nat, j: nat)
    requires acts != [] && i < j < |acts| - 1
    ensures ReleasedAt(acts, i, j) <==> ReleasedAt(acts[..|acts| - 1], i, j)
  {
    var front := acts[..|acts| - 1];
    assert forall k | i < k <= j :: acts[k] == front[k];
  }

  lemma NoneAcceptedGoesOn(acts: seq<Act>, j: nat)
    requires acts != [] && j < |acts| - 1
    ensures var front := acts[..|acts| - 1];
            NoneAccepted(acts, j) <==> NoneAccepted(front, j) && !Accepts(AfterActs(front), acts[|front|])
  {
    var front := acts[..|acts| - 1];
    forall k | 0 <= k < |acts| ensures acts[..k] == front[..k] && (k < |front| ==> acts[k] == front[k]) {
      Shorter(acts, k);
    }
    assert front[..|front|] == front;
  }

  lemma StrandingGoesOn(acts: seq<Act>, i: nat, j: nat)
    requires acts != [] && i < j < |acts| - 1
    ensures var front, a := acts[..|acts| - 1], acts[|acts| - 1];
            LeftStranded(acts, i, j) <==> LeftStranded(front, i, j) && !a.DoStop? && !Accepts(AfterActs(front), a)
  {
    LateGoesOn(acts, i);
    ReleaseGoesOn(acts, i, j);
    NoneAcceptedGoesOn(acts, j);
  }

  lemma StrandingBegins(acts: seq<Act>, i: nat)
    requires acts != [] && i < |acts| - 1
    ensures var front, a := acts[..|acts| - 1], acts[|acts| - 1];
            LeftStranded(acts, i, |front|) <==> LeftWaiting(front, i) && a.DoRelease?
  {
    var front := acts[..|acts| - 1];
    forall k | 0 <= k < |acts| ensures acts[..k] == front[..k] && (k < |front| ==> acts[k] == front[k]) {
      Shorter(acts, k);
    }
  }

  lemma LeftStrandedStep(acts: seq<Act>)
    requires acts != []
    ensures var front, a := acts[..|acts| - 1], acts[|acts| - 1];
            SomeLeftStranded(acts) <==>
            || (SomeLeftWaiting(front) && a.DoRelease?)
            || (SomeLeftStranded(front) && !a.DoStop? && !Accepts(AfterActs(front), a))
  {
    var front, a := acts[..|acts| - 1], acts[|acts| - 1];
    if i: nat, j: nat :| LeftStranded(front, i, j) { StrandingGoesOn(acts, i, j); }
    if i: nat :| LeftWaiting(front, i) { StrandingBegins(acts, i); }
    if i: nat, j: nat :| LeftStranded(acts, i, j) {
      if j < |front| { StrandingGoesOn(acts, i, j); } else { StrandingBegins(acts, i); }
    }
  }

  /**
   An accepted job is left to nobody exactly when it was accepted after its
   worker had left the loop and before that worker was released, no stop has
   dropped it, and no later job was accepted to start another worker.
   */
  lemma {:induction false} StrandedExactly(acts: seq<Act>)
    ensures Stranded(AfterActs(acts)) <==> exists i: nat, j: nat :: LeftStranded(acts, i, j)
  {
    if acts != [] {
      StrandedExactly(acts[..|acts| - 1]);
      WaitingExactly(acts[..|acts| - 1]);
      LeftStrandedStep(acts);
      StrandStep(AfterActs(acts[..|acts| - 1]), acts[|acts| - 1]);
    }
  }

  /** The next accepted job starts a worker, which takes up the stranded one first. */
  lemma NextJobRescues(s: State, a: Act)
    requires Stranded(s) && Accepts(s, a)
    ensures Act1(s, a).queue == s.queue[1..] + [Job(|s.accepted|, a.provider, a.model)]
    ensures !Act1(s, a).worker.Off? && !Act1(s, a).worker.Leaving?
  {
  }

  lemma OneMoreAct(acts: seq<Act>, a: Act)
    ensures AfterActs(acts + [a]) == Act1(AfterActs(acts), a)
  {
    assert (acts + [a])[..|acts|] == acts;
  }

  /** A worker whose only job is finished leaves; a second job comes before it is released. */
  lemma AJobCanBeStranded(first: Act, second: Act, reply: Reply)
    requires first.DoEnqueue? && first.plan == Plan(None, [], true) && first.reply.plan == first.plan
    requires second.DoEnqueue? && second.plan == first.plan
    ensures Stranded(AfterActs([first] + [DoReturn(true, None)] + [DoResume(reply)] + [second] + [DoRelease]))
  {
    OneMoreAct([], first);
    assert [] + [first] == [first];
    OneMoreAct([first], DoReturn(true, None));
    OneMoreAct([first] + [DoReturn(true, None)], DoResume(reply));
    OneMoreAct([first] + [DoReturn(true, None)] + [DoResume(reply)], second);
    OneMoreAct([first] + [DoReturn(true, None)] + [DoResume(reply)] + [second], DoRelease);
    var s := AfterActs([first] + [DoReturn(true, None)] + [DoResume(reply)]);
    assert s.worker.Leaving? && s.queue == [];
  }
}
