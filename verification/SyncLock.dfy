/**
 catalog/server/sync-runner.ts: one lock for full syncs and resolution passes.
 Each act is one stretch of a run between awaits; scheduler ticks, requests and
 waiting passes may come between any two.
 */
module SyncLock {
  import opened Wrappers

  datatype Mode = Full | Resolution

  /** What happened to callers, oldest first. */
  datatype Mark = FullStarted | FullRefused(during: Mode) | PassStarted | PassGaveUp

  /**
   `running`, `mode`, `startedAt` and `queued` are the runner's own fields.
   `microtasks` counts the queued restarts still to run, and `fulls` and
   `passes` the bodies now between taking the lock and their `finally`.
   */
  datatype State = State(
    running: bool,
    mode: Option<Mode>,
    startedAt: Option<int>,
    queued: bool,
    microtasks: nat,
    fulls: nat,
    passes: nat,
    log: seq<Mark>)

  const START := State(false, None, None, false, 0, 0, 0, [])

  // ----- the stretches ------------------------------------------------------------

  /** `run` up to its first await: it takes the lock, or leaves word that it was wanted. */
  function RunCalled(s: State, now: int): State {
    if s.running then
      s.(queued := s.queued || s.mode == Some(Resolution),
         log := s.log + if s.mode.Some? then [FullRefused(s.mode.value)] else [])
    else
      s.(running := true, mode := Some(Full), startedAt := Some(now),
         fulls := s.fulls + 1, log := s.log + [FullStarted])
  }

  function Released(s: State): State {
    s.(running := false, mode := None, startedAt := None)
  }

  function FullEnds(s: State): State {
    if s.fulls == 0 then s else Released(s).(fulls := s.fulls - 1)
  }

  datatype Look = Wait | GiveUp | NothingDue | Start

  /** A pass looks at the lock, first or on waking; `due` says whether any job is. */
  function Looks(s: State, now: int, deadline: int, due: bool): Look {
    if s.running then (if now < deadline then Wait else GiveUp)
    else if due then Start else NothingDue
  }

  function PassLooks(s: State, now: int, deadline: int, due: bool): State {
    match Looks(s, now, deadline, due)
    case Start =>
      s.(running := true, mode := Some(Resolution), startedAt := Some(now),
         passes := s.passes + 1, log := s.log + [PassStarted])
    case GiveUp => s.(log := s.log + [PassGaveUp])
    case _ => s
  }

  /** A pass's `finally`: a full sync asked for meanwhile is handed to a microtask. */
  function PassEnds(s: State): State {
    if s.passes == 0 then s
    else
      var free := Released(s).(passes := s.passes - 1);
      if free.queued then free.(queued := false, microtasks := free.microtasks + 1) else free
  }

  function MicrotaskRuns(s: State, now: int): State {
    if s.microtasks == 0 then s else RunCalled(s.(microtasks := s.microtasks - 1), now)
  }

  datatype Act =
    | DoRun(now: int)
    | DoFullEnd
    | DoLook(now: int, deadline: int, due: bool)
    | DoPassEnd
    | DoMicrotask(now: int)

  function Act1(s: State, a: Act): State {
    match a
    case DoRun(now) => RunCalled(s, now)
    case DoFullEnd => FullEnds(s)
    case DoLook(now, deadline, due) => PassLooks(s, now, deadline, due)
    case DoPassEnd => PassEnds(s)
    case DoMicrotask(now) => MicrotaskRuns(s, now)
  }

  function AfterActs(acts: seq<Act>): State {
    if acts == [] then START else Act1(AfterActs(acts[..|acts| - 1]), acts[|acts| - 1])
  }

  // ----- what every interleaving keeps ------------------------------------------------

  /** A full sync was refused during a pass, and none has started since. */
  predicate Owed(log: seq<Mark>) {
    if log == [] then false
    else
      match log[|log| - 1]
      case FullRefused(Resolution) => true
      case FullStarted => false
      case _ => Owed(log[..|log| - 1])
  }

  ghost predicate Good(s: State) {
    && s.fulls + s.passes <= 1
    && (s.running <==> s.fulls + s.passes == 1)
    && (s.mode == Some(Full) <==> s.fulls == 1)
    && (s.mode == Some(Resolution) <==> s.passes == 1)
    && (s.startedAt.Some? <==> s.running)
    && (s.queued ==> s.passes == 1 && Owed(s.log))
    && (Owed(s.log) ==> s.fulls == 0 && (s.queued || s.microtasks > 0))
  }

  lemma OwedAppends(log: seq<Mark>, m: Mark)
    ensures Owed(log + [m]) == (m == FullRefused(Resolution) || (m != FullStarted && Owed(log)))
  {
    assert (log + [m])[..|log|] == log;
  }

  lemma RunKeeps(s: State, now: int)
    requires s.fulls + s.passes <= 1 && (s.running <==> s.fulls + s.passes == 1)
    requires (s.mode == Some(Full) <==> s.fulls == 1) && (s.mode == Some(Resolution) <==> s.passes == 1)
    requires s.startedAt.Some? <==> s.running
    requires s.queued ==> s.passes == 1 && Owed(s.log)
    requires Owed(s.log) ==> s.fulls == 0
    ensures Good(RunCalled(s, now))
    ensures !s.running ==> !Owed(RunCalled(s, now).log) && RunCalled(s, now).fulls == 1
  {
    if s.running {
      OwedAppends(s.log, FullRefused(s.mode.value));
    } else {
      OwedAppends(s.log, FullStarted);
    }
  }

  lemma ActKeeps(s: State, a: Act)
    requires Good(s)
    ensures Good(Act1(s, a))
  {
    match a
    case DoRun(now) => RunKeeps(s, now);
    case DoFullEnd =>
    case DoLook(now, deadline, due) =>
      OwedAppends(s.log, PassStarted);
      OwedAppends(s.log, PassGaveUp);
    case DoPassEnd =>
    case DoMicrotask(now) =>
      if s.microtasks > 0 { RunKeeps(s.(microtasks := s.microtasks - 1), now); }
  }

  lemma {:induction false} InterleavingsKeepGood(acts: seq<Act>)
    ensures Good(AfterActs(acts))
  {
    if acts != [] {
      InterleavingsKeepGood(acts[..|acts| - 1]);
      ActKeeps(AfterActs(acts[..|acts| - 1]), acts[|acts| - 1]);
    }
  }

  /**
   Under every interleaving full syncs and passes exclude each other and
   themselves, a queued full sync waits on a running pass, and one refused during
   a pass stays queued, or handed to a microtask, until a full sync starts.
   */
  lemma LockIsExclusiveAndDebtIsKept(acts: seq<Act>)
    ensures var s := AfterActs(acts);
            && s.fulls + s.passes <= 1
            && (s.running <==> s.fulls + s.passes == 1)
            && (s.queued ==> s.mode == Some(Resolution) && s.passes == 1)
            && (Owed(s.log) ==> s.queued || s.microtasks > 0)
            && (s.fulls == 1 ==> !Owed(s.log))
  {
    InterleavingsKeepGood(acts);
  }

  /** Once the lock is free, an owed full sync has a microtask waiting, and that microtask starts it. */
  lemma DebtIsPaidByTheNextMicrotask(acts: seq<Act>, now: int)
    requires Owed(AfterActs(acts).log) && !AfterActs(acts).running
    ensures var s := AfterActs(acts);
            var after := MicrotaskRuns(s, now);
            s.microtasks > 0 && after.fulls == 1 && !Owed(after.log) && after.mode == Some(Full)
  {
    InterleavingsKeepGood(acts);
    var s := AfterActs(acts);
    RunKeeps(s.(microtasks := s.microtasks - 1), now);
  }

  /** A microtask that finds the lock taken again loses nothing: the debt is paid, or stands as a queued sync. */
  lemma LateMicrotaskLosesNothing(acts: seq<Act>, now: int)
    requires AfterActs(acts).running && AfterActs(acts).microtasks > 0
    ensures var s := AfterActs(acts);
            var after := MicrotaskRuns(s, now);
            && (s.fulls == 1 ==> !Owed(s.log) && !Owed(after.log))
            && (s.passes == 1 ==> after.queued)
  {
    InterleavingsKeepGood(acts);
    var s := AfterActs(acts);
    OwedAppends(s.log, FullRefused(s.mode.value));
  }

  // ----- the runner ---------------------------------------------------------------------

  /** `microtasks`, `fulls`, `passes` and `log` only keep count; no branch reads them but a body's own end. */
  class SyncRunner {
    var running: bool
    var mode: Option<Mode>
    var startedAt: Option<int>
    var fullSyncQueued: bool
    var microtasks: nat
    var fulls: nat
    var passes: nat
    var log: seq<Mark>

    function Snapshot(): State
      reads this
    {
      State(running, mode, startedAt, fullSyncQueued, microtasks, fulls, passes, log)
    }

    constructor ()
      ensures Snapshot() == START
    {
      running, mode, startedAt, fullSyncQueued := false, None, None, false;
      microtasks, fulls, passes, log := 0, 0, 0, [];
    }

    /** The start of `run`; a refused caller is answered at once rather than made to wait. */
    method Run(now: int) returns (started: bool)
      modifies this
      ensures Snapshot() == RunCalled(old(Snapshot()), now)
      ensures started == !old(running)
    {
      if running {
        if mode == Some(Resolution) { fullSyncQueued := true; }
        log := log + if mode.Some? then [FullRefused(mode.value)] else [];
        return false;
      }
      running, mode, startedAt := true, Some(Full), Some(now);
      fulls, log := fulls + 1, log + [FullStarted];
      return true;
    }

    method EndRun()
      modifies this
      ensures Snapshot() == FullEnds(old(Snapshot()))
    {
      if fulls > 0 {
        running, mode, startedAt := false, None, None;
        fulls := fulls - 1;
      }
    }

    /** One turn of a pass's wait loop and, if the lock is free, its start. */
    method LookForPass(now: int, deadline: int, due: bool) returns (look: Look)
      modifies this
      ensures Snapshot() == PassLooks(old(Snapshot()), now, deadline, due)
      ensures look == Looks(old(Snapshot()), now, deadline, due)
    {
      if running && now < deadline { return Wait; }
      if running {
        log := log + [PassGaveUp];
        return GiveUp;
      }
      if !due { return NothingDue; }
      running, mode, startedAt := true, Some(Resolution), Some(now);
      passes, log := passes + 1, log + [PassStarted];
      return Start;
    }

    method EndPass()
      modifies this
      ensures Snapshot() == PassEnds(old(Snapshot()))
    {
      if passes == 0 { return; }
      running, mode, startedAt := false, None, None;
      passes := passes - 1;
      if fullSyncQueued {
        fullSyncQueued := false;
        microtasks := microtasks + 1;
      }
    }

    method RunMicrotask(now: int) returns (started: bool)
      modifies this
      ensures Snapshot() == MicrotaskRuns(old(Snapshot()), now)
    {
      started := false;
      if microtasks > 0 {
        microtasks := microtasks - 1;
        started := Run(now);
      }
    }
  }

  // ----- what a caller meets ------------------------------------------------------------------

  /** A waiting pass starts on a free lock with something due, and gives up on a taken one at its deadline. */
  lemma LookExactly(s: State, now: int, deadline: int, due: bool)
    ensures Looks(s, now, deadline, due) == Start <==> !s.running && due
    ensures Looks(s, now, deadline, due) == NothingDue <==> !s.running && !due
    ensures Looks(s, now, deadline, due) == Wait <==> s.running && now < deadline
    ensures Looks(s, now, deadline, due) == GiveUp <==> s.running && now >= deadline
    ensures (Looks(s, now, deadline, due) == Wait || Looks(s, now, deadline, due) == NothingDue) ==>
              PassLooks(s, now, deadline, due) == s
  {
  }

  function TimeOf(a: Act): int {
    match a
    case DoRun(now) => now
    case DoLook(now, _, _) => now
    case DoMicrotask(now) => now
    case _ => 0
  }

  /** The time the lock was taken is shown as long as it is held, and no longer. */
  lemma ShownSinceTaken(acts: seq<Act>, a: Act)
    ensures var s, after := AfterActs(acts), AfterActs(acts + [a]);
            after.startedAt == if !after.running then None else if s.running then s.startedAt else Some(TimeOf(a))
  {
    assert (acts + [a])[..|acts|] == acts;
    InterleavingsKeepGood(acts);
  }

  /** Every call of a full sync is marked: started on a free lock, or refused for what holds it. */
  lemma CallsAreMarked(acts: seq<Act>, now: int)
    ensures var s := AfterActs(acts);
            RunCalled(s, now).log ==
            s.log + [if !s.running then FullStarted else FullRefused(if s.fulls > 0 then Full else Resolution)]
  {
    InterleavingsKeepGood(acts);
  }
}
