/**
 internal/httpapi/auth.go: the sliding-window limiter of the setup endpoint.
 The attempts live in a backing array that `Allow` compacts in place.
 */
module RateLimiter {
  type Time = int

  // ----- what one call does --------------------------------------------------

  /** The attempts strictly after the cutoff, in order. */
  function Kept(attempts: seq<Time>, cutoff: Time): seq<Time> {
    if attempts == [] then []
    else
      var last := attempts[|attempts| - 1];
      Kept(attempts[..|attempts| - 1], cutoff) + if last > cutoff then [last] else []
  }

  predicate Admits(attempts: seq<Time>, now: Time, max: int, window: int) {
    |Kept(attempts, now - window)| < max
  }

  function Allowed(attempts: seq<Time>, now: Time, max: int, window: int): seq<Time> {
    Kept(attempts, now - window) + if Admits(attempts, now, max, window) then [now] else []
  }

  /** `attempts[..count]` is the Go slice; the array behind it is its capacity. */
  class FixedWindowLimiter {
    const max: int
    const window: int
    var buffer: array<Time>
    var count: nat

    ghost predicate Valid()
      reads this
    {
      count <= buffer.Length
    }

    function Attempts(): seq<Time>
      requires Valid()
      reads this, buffer
    {
      buffer[..count]
    }

    constructor (max: int, window: int)
      ensures Valid() && Attempts() == []
      ensures this.max == max && this.window == window
      ensures fresh(buffer)
    {
      this.max, this.window := max, window;
      buffer, count := new Time[0], 0;
    }

    method Allow(now: Time) returns (ok: bool)
      requires Valid()
      modifies this, buffer
      ensures Valid() && (buffer == old(buffer) || fresh(buffer))
      ensures Attempts() == Allowed(old(Attempts()), now, max, window)
      ensures ok == Admits(old(Attempts()), now, max, window)
    {
      Compact(now - window);
      if count >= max { return false; }
      Append(now);
      return true;
    }

    /** Kept attempts slide to the front of the array they are being read from. */
    method Compact(cutoff: Time)
      requires Valid()
      modifies this`count, buffer
      ensures Valid() && Attempts() == Kept(old(Attempts()), cutoff)
    {
      ghost var was := Attempts();
      var kept := 0;
      for i := 0 to count
        invariant kept <= i <= count <= buffer.Length && |was| == count
        invariant buffer[..kept] == Kept(was[..i], cutoff)
        invariant buffer[i..count] == was[i..]
      {
        var t := buffer[i];
        assert t == was[i] by { assert buffer[i..count][0] == was[i..][0]; }
        assert was[..i + 1][..i] == was[..i];
        if t > cutoff {
          ghost var front := buffer[..kept];
          buffer[kept] := t;
          kept := kept + 1;
          assert buffer[..kept] == front + [t];
        }
        assert was[i + 1..] == was[i..][1..];
      }
      assert was[..count] == was;
      count := kept;
    }

    /** Go's append: a full array is replaced by a larger one. */
    method Append(now: Time)
      requires Valid()
      modifies this, buffer
      ensures Valid() && (buffer == old(buffer) || fresh(buffer))
      ensures Attempts() == old(Attempts()) + [now]
    {
      if count == buffer.Length {
        var larger := new Time[2 * buffer.Length + 1];
        forall i | 0 <= i < count { larger[i] := buffer[i]; }
        assert larger[..count] == buffer[..count];
        buffer := larger;
      }
      ghost var was := buffer[..count];
      buffer[count] := now;
      count := count + 1;
      assert buffer[..count] == was + [now];
    }
  }

  // ----- whole runs ------------------------------------------------------------

  /** The slice after a run of calls, and the attempts it admitted. */
  function Slice(calls: seq<Time>, max: int, window: int): seq<Time> {
    if calls == [] then []
    else Allowed(Slice(calls[..|calls| - 1], max, window), calls[|calls| - 1], max, window)
  }

  function Admitted(calls: seq<Time>, max: int, window: int): seq<Time> {
    if calls == [] then []
    else
      var front, now := calls[..|calls| - 1], calls[|calls| - 1];
      Admitted(front, max, window) + if Admits(Slice(front, max, window), now, max, window) then [now] else []
  }

  ghost predicate Nondecreasing(calls: seq<Time>) {
    forall i, j | 0 <= i < j < |calls| :: calls[i] <= calls[j]
  }

  /** How many attempts lie in the half-open interval (from, to]. */
  function CountIn(attempts: seq<Time>, from: Time, to: Time): nat {
    if attempts == [] then 0
    else
      var last := attempts[|attempts| - 1];
      CountIn(attempts[..|attempts| - 1], from, to) + if from < last <= to then 1 else 0
  }

  lemma {:induction false} KeptAppends(a: seq<Time>, b: seq<Time>, cutoff: Time)
    ensures Kept(a + b, cutoff) == Kept(a, cutoff) + Kept(b, cutoff)
  {
    if b == [] {
      assert a + b == a;
    } else {
      assert (a + b)[..|a + b| - 1] == a + b[..|b| - 1];
      KeptAppends(a, b[..|b| - 1], cutoff);
    }
  }

  ghost predicate NoneAfter(a: seq<Time>, t: Time) {
    forall i | 0 <= i < |a| :: a[i] <= t
  }

  lemma {:induction false} KeptCounts(a: seq<Time>, from: Time, to: Time)
    requires NoneAfter(a, to)
    ensures |Kept(a, from)| == CountIn(a, from, to)
  {
    if a != [] { KeptCounts(a[..|a| - 1], from, to); }
  }

  lemma {:induction false} AdmittedInThePast(calls: seq<Time>, max: int, window: int, now: Time)
    requires NoneAfter(calls, now)
    ensures NoneAfter(Admitted(calls, max, window), now)
  {
    if calls != [] { AdmittedInThePast(calls[..|calls| - 1], max, window, now); }
  }

  lemma RunStep(front: seq<Time>, now: Time, max: int, window: int)
    ensures Slice(front + [now], max, window) == Allowed(Slice(front, max, window), now, max, window)
    ensures Admitted(front + [now], max, window) ==
            Admitted(front, max, window) + if Admits(Slice(front, max, window), now, max, window) then [now] else []
  {
    assert (front + [now])[..|front|] == front;
  }

  lemma KeptOneMore(a: seq<Time>, t: Time, cutoff: Time)
    ensures Kept(a + [t], cutoff) == Kept(a, cutoff) + if t > cutoff then [t] else []
  {
    assert (a + [t])[..|a|] == a;
  }

  /**
   The clock stays out of windows it has left: an attempt that one reading puts
   out of its window is out of the window of every later reading. A clock that
   never runs back does so, and so does one that only steps back a little.
   */
  ghost predicate StaysOut(calls: seq<Time>, window: int) {
    forall i, k, j | 0 <= i < k < j < |calls| :: calls[i] <= calls[k] - window ==> calls[i] <= calls[j] - window
  }

  lemma NondecreasingStaysOut(calls: seq<Time>, window: int)
    requires Nondecreasing(calls)
    ensures StaysOut(calls, window)
  {
  }

  /** The same of one reading and the next: what the reading before put out stays out. */
  ghost predicate NextStaysOut(front: seq<Time>, now: Time, window: int) {
    forall i | 0 <= i < |front| :: front[i] <= front[|front| - 1] - window ==> front[i] <= now - window
  }

  lemma StaysOutAtTheEnd(front: seq<Time>, now: Time, window: int)
    requires StaysOut(front + [now], window) && window > 0
    ensures StaysOut(front, window) && NextStaysOut(front, now, window)
  {
    var calls := front + [now];
    assert forall i | 0 <= i < |front| :: calls[i] == front[i];
    forall i | 0 <= i < |front| && front[i] <= front[|front| - 1] - window ensures front[i] <= now - window {
      assert calls[i] <= calls[|front| - 1] - window && calls[|front|] == now;
    }
  }

  lemma {:induction false} KeptTwiceWhenOut(a: seq<Time>, early: Time, late: Time)
    requires forall t | t in a :: t <= early ==> t <= late
    ensures Kept(Kept(a, early), late) == Kept(a, late)
  {
    if a != [] {
      var front, last := a[..|a| - 1], a[|a| - 1];
      assert a == front + [last] && last in a;
      assert forall t | t in front :: t in a;
      KeptTwiceWhenOut(front, early, late);
      KeptAppends(Kept(front, early), if last > early then [last] else [], late);
    }
  }

  lemma {:induction false} AdmittedAreCalls(calls: seq<Time>, max: int, window: int)
    ensures forall t | t in Admitted(calls, max, window) :: t in calls
  {
    if calls != [] { AdmittedAreCalls(calls[..|calls| - 1], max, window); }
  }

  /** What the slice keeps inside a window, however it came about. */
  ghost predicate SliceIsWindow(front: seq<Time>, max: int, window: int) {
    front != [] ==> Slice(front, max, window) == Kept(Admitted(front, max, window), front[|front| - 1] - window)
  }

  lemma WindowShrinks(front: seq<Time>, now: Time, max: int, window: int)
    requires SliceIsWindow(front, max, window) && NextStaysOut(front, now, window)
    ensures Kept(Slice(front, max, window), now - window) == Kept(Admitted(front, max, window), now - window)
  {
    if front != [] {
      AdmittedStayOut(front, now, max, window);
      KeptTwiceWhenOut(Admitted(front, max, window), front[|front| - 1] - window, now - window);
    }
  }

  lemma AdmittedStayOut(front: seq<Time>, now: Time, max: int, window: int)
    requires front != [] && NextStaysOut(front, now, window)
    ensures forall t | t in Admitted(front, max, window) :: t <= front[|front| - 1] - window ==> t <= now - window
  {
    AdmittedAreCalls(front, max, window);
    forall t | t in front && t <= front[|front| - 1] - window ensures t <= now - window {
      var i :| 0 <= i < |front| && front[i] == t;
    }
  }

  /** If the slice before a call is its window, so is the slice after it. */
  lemma WindowStep(front: seq<Time>, now: Time, max: int, window: int)
    requires Kept(Slice(front, max, window), now - window) == Kept(Admitted(front, max, window), now - window)
    requires window > 0
    ensures Slice(front + [now], max, window) == Kept(Admitted(front + [now], max, window), now - window)
  {
    RunStep(front, now, max, window);
    AllowedIsWindow(Slice(front, max, window), Slice(front + [now], max, window),
                    Admitted(front, max, window), Admitted(front + [now], max, window), now, max, window);
  }

  lemma WindowAtLast(front: seq<Time>, now: Time, max: int, window: int)
    requires Slice(front + [now], max, window) == Kept(Admitted(front + [now], max, window), now - window)
    ensures SliceIsWindow(front + [now], max, window)
  {
    assert (front + [now])[|front + [now]| - 1] == now;
  }

  lemma AllowedIsWindow(slice: seq<Time>, next: seq<Time>, told: seq<Time>, more: seq<Time>,
                        now: Time, max: int, window: int)
    requires Kept(slice, now - window) == Kept(told, now - window) && window > 0
    requires next == Allowed(slice, now, max, window)
    requires more == told + if Admits(slice, now, max, window) then [now] else []
    ensures next == Kept(more, now - window)
  {
    AllowedIsKept(slice, told, now, max, window);
  }

  lemma AllowedIsKept(slice: seq<Time>, told: seq<Time>, now: Time, max: int, window: int)
    requires Kept(slice, now - window) == Kept(told, now - window) && window > 0
    ensures Allowed(slice, now, max, window) ==
            Kept(told + if Admits(slice, now, max, window) then [now] else [], now - window)
  {
    KeptOneMore(told, now, now - window);
    assert told + [] == told && Kept(told, now - window) + [] == Kept(told, now - window);
  }

  lemma {:induction false} SliceIsTheWindow(calls: seq<Time>, max: int, window: int)
    requires StaysOut(calls, window) && window > 0
    ensures SliceIsWindow(calls, max, window)
  {
    if calls != [] {
      var front, now := calls[..|calls| - 1], calls[|calls| - 1];
      assert calls == front + [now];
      StaysOutAtTheEnd(front, now, window);
      SliceIsTheWindow(front, max, window);
      WindowShrinks(front, now, max, window);
      WindowStep(front, now, max, window);
      WindowAtLast(front, now, max, window);
    }
  }

  lemma InTheWindow(front: seq<Time>, now: Time, max: int, window: int)
    requires StaysOut(front + [now], window) && window > 0
    ensures Kept(Slice(front, max, window), now - window) == Kept(Admitted(front, max, window), now - window)
  {
    StaysOutAtTheEnd(front, now, window);
    SliceIsTheWindow(front, max, window);
    WindowShrinks(front, now, max, window);
  }

  lemma {:induction false} CountedAreKept(a: seq<Time>, from: Time, cutoff: Time, to: Time)
    requires cutoff <= from
    ensures CountIn(a, from, to) <= |Kept(a, cutoff)|
  {
    if a != [] { CountedAreKept(a[..|a| - 1], from, cutoff, to); }
  }

  lemma {:induction false} KeptIsShorter(a: seq<Time>, cutoff: Time)
    ensures |Kept(a, cutoff)| <= |a|
  {
    if a != [] { KeptIsShorter(a[..|a| - 1], cutoff); }
  }

  lemma SliceIsShort(front: seq<Time>, now: Time, max: nat, window: int)
    requires |Slice(front, max, window)| <= max
    ensures |Slice(front + [now], max, window)| <= max
  {
    RunStep(front, now, max, window);
    KeptIsShorter(Slice(front, max, window), now - window);
  }

  lemma AdmissionFits(front: seq<Time>, now: Time, max: nat, window: int, t: Time)
    requires StaysOut(front + [now], window) && window > 0
             && CountIn(Admitted(front, max, window), t - window, t) <= max
    ensures CountIn(Admitted(front + [now], max, window), t - window, t) <= max
  {
    RunStep(front, now, max, window);
    if Admits(Slice(front, max, window), now, max, window) {
      InTheWindow(front, now, max, window);
      OneMoreFits(Admitted(front, max, window), now, max, window, t);
    } else {
      assert Admitted(front, max, window) + [] == Admitted(front, max, window);
    }
  }

  /**
   Over any run whose clock stays out of windows it has left, no interval of one
   window's length holds more than `max` admitted attempts, and the slice stays
   as short.
   */
  lemma {:induction false} NoWindowOverflows(calls: seq<Time>, max: nat, window: int, t: Time)
    requires StaysOut(calls, window) && window > 0
    ensures CountIn(Admitted(calls, max, window), t - window, t) <= max
    ensures |Slice(calls, max, window)| <= max
  {
    if calls != [] {
      var front, now := calls[..|calls| - 1], calls[|calls| - 1];
      assert calls == front + [now];
      StaysOutAtTheEnd(front, now, window);
      NoWindowOverflows(front, max, window, t);
      SliceIsShort(front, now, max, window);
      AdmissionFits(front, now, max, window, t);
    }
  }

  lemma OneMoreFits(told: seq<Time>, now: Time, max: nat, window: int, t: Time)
    requires CountIn(told, t - window, t) <= max && |Kept(told, now - window)| < max
    ensures CountIn(told + [now], t - window, t) <= max
  {
    CountAppends(told, now, t - window, t);
    if t >= now { CountedAreKept(told, t - window, now - window, t); }
  }

  /**
   A call is refused exactly when `max` admitted attempts are still inside its
   window; with no attempt later than now, that is the window ending now.
   */
  lemma RefusalIsExact(front: seq<Time>, now: Time, max: nat, window: int)
    requires StaysOut(front + [now], window) && window > 0
    ensures !Admits(Slice(front, max, window), now, max, window) <==>
            |Kept(Admitted(front, max, window), now - window)| == max
    ensures NoneAfter(front, now) ==>
              |Kept(Admitted(front, max, window), now - window)| ==
              CountIn(Admitted(front, max, window), now - window, now)
  {
    StaysOutAtTheEnd(front, now, window);
    InTheWindow(front, now, max, window);
    NoWindowOverflows(front, max, window, now);
    RefusedWhenFull(Slice(front, max, window), now, max, window);
    WindowIsCounted(front, now, max, window);
  }

  lemma WindowIsCounted(front: seq<Time>, now: Time, max: nat, window: int)
    ensures NoneAfter(front, now) ==>
              |Kept(Admitted(front, max, window), now - window)| ==
              CountIn(Admitted(front, max, window), now - window, now)
  {
    if NoneAfter(front, now) {
      AdmittedInThePast(front, max, window, now);
      KeptCounts(Admitted(front, max, window), now - window, now);
    }
  }

  lemma RefusedWhenFull(slice: seq<Time>, now: Time, max: nat, window: int)
    requires |slice| <= max
    ensures !Admits(slice, now, max, window) <==> |Kept(slice, now - window)| == max
  {
    KeptIsShorter(slice, now - window);
  }

  // ----- exactly which clocks ------------------------------------------------------------

  lemma {:induction false} PrefixStaysOut(calls: seq<Time>, window: int, n: nat)
    requires n <= |calls| && StaysOut(calls, window)
    ensures StaysOut(calls[..n], window)
  {
    assert forall i | 0 <= i < n :: calls[..n][i] == calls[i];
  }

  /** With room for every call, all are admitted. */
  lemma {:induction false} AllAdmitted(calls: seq<Time>, max: int, window: int)
    requires |calls| < max
    ensures Admitted(calls, max, window) == calls && |Slice(calls, max, window)| <= |calls|
  {
    if calls != [] {
      var front, now := calls[..|calls| - 1], calls[|calls| - 1];
      AllAdmitted(front, max, window);
      assert calls == front + [now];
      RunStep(front, now, max, window);
      RoomAdmits(Slice(front, max, window), now, max, window);
    }
  }

  lemma RoomAdmits(slice: seq<Time>, now: Time, max: int, window: int)
    requires |slice| < max
    ensures Admits(slice, now, max, window) && |Allowed(slice, now, max, window)| <= |slice| + 1
  {
    KeptIsShorter(slice, now - window);
  }

  lemma {:induction false} KeptTwiceTells(a: seq<Time>, early: Time, late: Time, i: nat)
    requires i < |a| && a[i] <= early && |Kept(Kept(a, early), late)| == |Kept(a, late)|
    ensures a[i] <= late
  {
    var front, last := a[..|a| - 1], a[|a| - 1];
    KeptAppends(Kept(front, early), if last > early then [last] else [], late);
    KeptTwiceIsShorter(front, early, late);
    if i < |a| - 1 { KeptTwiceTells(front, early, late, i); }
  }

  lemma {:induction false} KeptTwiceIsShorter(a: seq<Time>, early: Time, late: Time)
    ensures |Kept(Kept(a, early), late)| <= |Kept(a, late)|
  {
    if a != [] {
      var front, last := a[..|a| - 1], a[|a| - 1];
      KeptAppends(Kept(front, early), if last > early then [last] else [], late);
      KeptTwiceIsShorter(front, early, late);
    }
  }

  lemma AllowedWithRoom(slice: seq<Time>, now: Time, max: int, window: int)
    requires |slice| < max
    ensures Allowed(slice, now, max, window) == Kept(slice, now - window) + [now]
  {
    KeptIsShorter(slice, now - window);
  }

  lemma SliceOfAll(front: seq<Time>, now: Time, max: int, window: int)
    requires |front| + 1 < max
    ensures Slice(front + [now], max, window) == Kept(Slice(front, max, window), now - window) + [now]
  {
    AllAdmitted(front, max, window);
    RunStep(front, now, max, window);
    AllowedWithRoom(Slice(front, max, window), now, max, window);
  }

  /** With room for every call, the slice that is the window is the calls inside it. */
  lemma WindowWithRoom(front: seq<Time>, now: Time, max: int, window: int)
    requires |front| + 1 < max && SliceIsWindow(front + [now], max, window)
    ensures Slice(front + [now], max, window) == Kept(front + [now], now - window)
  {
    AllAdmitted(front + [now], max, window);
  }

  /** A slice that is the window at two calls running shows that the second reading let nothing back in. */
  lemma WindowTells(calls: seq<Time>, early: Time, now: Time, max: int, window: int)
    requires |calls| + 1 < max && window > 0
    requires Slice(calls, max, window) == Kept(calls, early)
    requires Slice(calls + [now], max, window) == Kept(calls + [now], now - window)
    ensures forall i | 0 <= i < |calls| :: calls[i] <= early ==> calls[i] <= now - window
  {
    SliceOfAll(calls, now, max, window);
    KeptAlikeTells(calls, now, early, now - window, Slice(calls, max, window), Slice(calls + [now], max, window));
  }

  lemma WindowsTell(front: seq<Time>, at: Time, now: Time, max: int, window: int)
    requires |front| + 2 < max && window > 0
    requires SliceIsWindow(front + [at], max, window) && SliceIsWindow(front + [at] + [now], max, window)
    ensures NextStaysOut(front + [at], now, window)
  {
    WindowWithRoom(front, at, max, window);
    WindowWithRoom(front + [at], now, max, window);
    WindowTells(front + [at], at - window, now, max, window);
  }

  lemma KeptAlikeTells(front: seq<Time>, now: Time, early: Time, late: Time, was: seq<Time>, slice: seq<Time>)
    requires was == Kept(front, early) && slice == Kept(was, late) + [now]
             && slice == Kept(front + [now], late) && late < now
    ensures forall i | 0 <= i < |front| :: front[i] <= early ==> front[i] <= late
  {
    KeptOneMore(front, now, late);
    SameBeforeLast(Kept(was, late), Kept(front, late), now);
    forall i | 0 <= i < |front| && front[i] <= early ensures front[i] <= late {
      KeptTwiceTells(front, early, late, i);
    }
  }

  lemma SameBeforeLast(a: seq<Time>, b: seq<Time>, t: Time)
    requires a + [t] == b + [t]
    ensures |a| == |b|
  {
    assert |a + [t]| == |a| + 1 && |b + [t]| == |b| + 1;
  }

  /** Readings that stay out one by one stay out for good. */
  lemma {:induction false} StaysOutStepByStep(calls: seq<Time>, window: int, i: nat, k: nat, j: nat)
    requires i < k < j < |calls| && calls[i] <= calls[k] - window
    requires forall n | 0 < n < |calls| :: NextStaysOut(calls[..n], calls[n], window)
    ensures calls[i] <= calls[j] - window
    decreases j
  {
    if k < j - 1 { StaysOutStepByStep(calls, window, i, k, j - 1); }
    assert NextStaysOut(calls[..j], calls[j], window);
    assert calls[..j][i] == calls[i] && calls[..j][|calls[..j]| - 1] == calls[j - 1];
  }

  /**
   The slice is the window's admitted attempts after every call, whatever the
   maximum, exactly when the clock stays out of windows it has left.
   */
  lemma SliceIsTheWindowExactly(calls: seq<Time>, window: int)
    requires window > 0
    ensures StaysOut(calls, window) <==>
            forall max: int, n | 0 <= n <= |calls| :: SliceIsWindow(calls[..n], max, window)
  {
    if StaysOut(calls, window) {
      forall max: int, n | 0 <= n <= |calls| ensures SliceIsWindow(calls[..n], max, window) {
        PrefixStaysOut(calls, window, n);
        SliceIsTheWindow(calls[..n], max, window);
      }
    } else if forall max: int, n | 0 <= n <= |calls| :: SliceIsWindow(calls[..n], max, window) {
      var max := |calls| + 1;
      forall n | 0 < n < |calls| ensures NextStaysOut(calls[..n], calls[n], window) {
        assert calls[..n + 1] == calls[..n] + [calls[n]] && calls[..n] == calls[..n - 1] + [calls[n - 1]];
        WindowsTell(calls[..n - 1], calls[n - 1], calls[n], max, window);
      }
      var i, k, j :| 0 <= i < k < j < |calls| && calls[i] <= calls[k] - window && calls[i] > calls[j] - window;
      StaysOutStepByStep(calls, window, i, k, j);
      assert false;
    }
  }

  /**
   Such a clock matters. Two attempts, a reading that puts them out of the
   window, and a reading back beside them: the same window now holds three.
   */
  lemma ClockMustNotRunBack(a: Time, b: Time, c: Time, d: Time, window: int)
    requires a <= b <= d < c && d - window < a && b <= c - window
    ensures CountIn(Admitted([a] + [b] + [c] + [d], 2, window), d - window, d) == 3
    ensures !StaysOut([a] + [b] + [c] + [d], window)
  {
    var calls := [a] + [b] + [c] + [d];
    assert calls[0] == a && calls[2] == c && calls[3] == d;
    AllFourAdmitted(a, b, c, d, window);
    CountAppends([a] + [b] + [c], d, d - window, d);
    CountAppends([a] + [b], c, d - window, d);
    CountAppends([a], b, d - window, d);
    CountAppends([], a, d - window, d);
    assert [] + [a] == [a];
  }

  lemma AllFourAdmitted(a: Time, b: Time, c: Time, d: Time, window: int)
    requires a <= b <= d < c && d - window < a && b <= c - window
    ensures Admitted([a] + [b] + [c] + [d], 2, window) == [a] + [b] + [c] + [d]
  {
    OneAdmitted([], [], a, 2, window);
    KeptOneMore([], a, b - window);
    OneAdmitted([a], [a], b, 2, window);
    BothDropped(a, b, c - window);
    OneAdmitted([a] + [b], [], c, 2, window);
    KeptOneMore([], c, d - window);
    OneAdmitted([a] + [b] + [c], [c], d, 2, window);
  }

  lemma BothDropped(a: Time, b: Time, cutoff: Time)
    requires a <= cutoff && b <= cutoff
    ensures Kept([a] + [b], cutoff) == []
  {
    KeptOneMore([], a, cutoff);
    KeptOneMore([a], b, cutoff);
  }

  lemma OneAdmitted(front: seq<Time>, kept: seq<Time>, now: Time, max: int, window: int)
    requires Kept(Slice(front, max, window), now - window) == kept && |kept| < max
    ensures [] + [now] == [now]
    ensures Slice(front + [now], max, window) == kept + [now]
    ensures Admitted(front + [now], max, window) == Admitted(front, max, window) + [now]
  {
    RunStep(front, now, max, window);
  }

  lemma CountAppends(a: seq<Time>, t: Time, from: Time, to: Time)
    ensures CountIn(a + [t], from, to) == CountIn(a, from, to) + if from < t <= to then 1 else 0
  {
    assert (a + [t])[..|a|] == a;
  }
}
