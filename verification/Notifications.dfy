/**
 catalog/server/model-notifications.ts: recorded events and failed runs
 projected, batch by batch, into notifications that are inserted once and may
 then be marked read.
 */
module Notifications {
  import opened CatalogTypes
  import opened Wrappers

  // ----- the rows projected ---------------------------------------------------------------

  /** A row of `model_events`. */
  datatype EventRow = EventRow(id: nat, event: Event)

  /** A row of `sync_runs`; a run still going has neither finish nor outcome. */
  datatype RunRow = RunRow(id: nat, provider: string, startedAt: Time,
    finishedAt: Option<Time>, outcome: Option<Outcome>)

  datatype NotificationId = ModelEvent(n: nat) | SyncRun(n: nat)

  datatype Category = Success | Error | Warning

  datatype Kind = ModelAdded | ModelRetired | FetchProblem

  /** The title's wording, with the names it is filled in with. */
  datatype Title = ModelJoins(provider: string, model: string) | ModelGoes(provider: string, model: string)
                 | ProviderNeedsAttention(provider: string) | SourcesNeedAttention

  /** The fixed wordings. */
  datatype Detail = Joined | Restored | Gone | ProviderUnread | SharedSourcesUnread

  datatype Notification = Notification(
    category: Category,
    kind: Kind,
    title: Title,
    detail: Detail,
    provider: Option<string>,
    model: Option<string>,
    observedAt: Time,
    readAt: Option<Time>,
    createdAt: Time)

  type Inbox = map<NotificationId, Notification>

  const SHARED_SOURCE := "catalog-shared-sources"

  // ----- catalog/server/changes.ts: which class of change an event is -------------------------

  /** The classes that are announced; `changes.ts` has more. */
  datatype ChangeClass = ClassAdded | ClassReadded | ClassRetired

  function ClassifyChangeEvent(k: EventKind): Option<ChangeClass> {
    match k
    case Added => Some(ClassAdded)
    case Readded(_) => Some(ClassReadded)
    case Removed(_, _) => Some(ClassRetired)
    case _ => None
  }

  function EventNotification(e: Event, now: Time): Option<Notification> {
    match ClassifyChangeEvent(e.kind)
    case Some(ClassAdded) =>
      Some(Notification(Success, ModelAdded, ModelJoins(e.provider, e.model), Joined,
        Some(e.provider), Some(e.model), e.at, None, now))
    case Some(ClassReadded) =>
      Some(Notification(Success, ModelAdded, ModelJoins(e.provider, e.model), Restored,
        Some(e.provider), Some(e.model), e.at, None, now))
    case Some(ClassRetired) =>
      Some(Notification(Error, ModelRetired, ModelGoes(e.provider, e.model), Gone,
        Some(e.provider), Some(e.model), e.at, None, now))
    case _ => None
  }

  predicate Failing(r: RunRow) { r.outcome == Some(Failed) || r.outcome == Some(Quarantined) }

  /** A failure of the shared sources belongs to no provider. */
  function RunNotification(r: RunRow, now: Time): Notification {
    var shared := r.provider == SHARED_SOURCE;
    Notification(
      Warning, FetchProblem,
      if shared then SourcesNeedAttention else ProviderNeedsAttention(r.provider),
      if shared then SharedSourcesUnread else ProviderUnread,
      if shared then None else Some(r.provider),
      None,
      if r.finishedAt.Some? then r.finishedAt.value else r.startedAt,
      None, now)
  }

  // ----- queries -----------------------------------------------------------------------------

  /** Row ids ascend from one. */
  ghost predicate Ascending<T(!new)>(rows: seq<T>, id: T -> nat) {
    && (forall i | 0 <= i < |rows| :: id(rows[i]) > 0)
    && (forall i, j | 0 <= i < j < |rows| :: id(rows[i]) < id(rows[j]))
  }

  /** `WHERE id > after ORDER BY id`. */
  function Past<T>(rows: seq<T>, id: T -> nat, after: nat): seq<T> {
    if rows == [] then []
    else Past(rows[..|rows| - 1], id, after) + if id(rows[|rows| - 1]) > after then [rows[|rows| - 1]] else []
  }

  /** `LIMIT`. */
  function Page<T>(rows: seq<T>, id: T -> nat, after: nat, limit: nat): seq<T> {
    var past := Past(rows, id, after);
    if |past| <= limit then past else past[..limit]
  }

  function FailingRuns(runs: seq<RunRow>): seq<RunRow> {
    if runs == [] then []
    else FailingRuns(runs[..|runs| - 1]) + if Failing(runs[|runs| - 1]) then [runs[|runs| - 1]] else []
  }

  function EventId(e: EventRow): nat { e.id }

  function RunId(r: RunRow): nat { r.id }

  /** The cursor reached by `k` rows. */
  function Cursor<T>(rows: seq<T>, id: T -> nat, k: nat): nat
    requires k <= |rows|
  {
    if k == 0 then 0 else id(rows[k - 1])
  }

  lemma {:induction false} PastTheCursor<T(!new)>(rows: seq<T>, id: T -> nat, k: nat)
    requires Ascending(rows, id) && k <= |rows|
    ensures Past(rows, id, Cursor(rows, id, k)) == rows[k..]
  {
    if k == |rows| {
      NothingPast(rows, id, Cursor(rows, id, k));
    } else {
      var front := rows[..|rows| - 1];
      PastTheCursor(front, id, k);
      assert Cursor(front, id, k) == Cursor(rows, id, k);
      assert rows[k..] == front[k..] + [rows[|rows| - 1]];
    }
  }

  lemma {:induction false} NothingPast<T>(rows: seq<T>, id: T -> nat, after: nat)
    requires forall i | 0 <= i < |rows| :: id(rows[i]) <= after
    ensures Past(rows, id, after) == []
  {
    if rows != [] { NothingPast(rows[..|rows| - 1], id, after); }
  }

  /** A page after `k` rows is the next rows, with the cursor left at its end. */
  lemma PageIsNext<T(!new)>(rows: seq<T>, id: T -> nat, k: nat, limit: nat)
    requires Ascending(rows, id) && k <= |rows| && limit > 0
    ensures var page := Page(rows, id, Cursor(rows, id, k), limit);
            && k + |page| <= |rows| && rows[..k] + page == rows[..k + |page|]
            && (page == [] <==> k == |rows|)
            && (page != [] ==> id(page[|page| - 1]) == Cursor(rows, id, k + |page|))
  {
    PastTheCursor(rows, id, k);
  }

  lemma {:induction false} FailingRunsAscend(runs: seq<RunRow>)
    requires Ascending(runs, RunId)
    ensures Ascending(FailingRuns(runs), RunId)
    ensures forall r :: r in FailingRuns(runs) <==> r in runs && Failing(r)
  {
    if runs != [] {
      var front, last := runs[..|runs| - 1], runs[|runs| - 1];
      FailingRunsAscend(front);
      assert runs == front + [last];
      forall i | 0 <= i < |FailingRuns(front)| ensures RunId(FailingRuns(front)[i]) < RunId(last) {
        assert FailingRuns(front)[i] in front;
      }
    }
  }

  // ----- the projection ------------------------------------------------------------------------

  /** `INSERT OR IGNORE`. */
  function Inserted(inbox: Inbox, id: NotificationId, n: Notification): Inbox {
    if id in inbox then inbox else inbox[id := n]
  }

  function WithEvent(inbox: Inbox, e: EventRow, now: Time): Inbox {
    var n := EventNotification(e.event, now);
    if n.Some? then Inserted(inbox, ModelEvent(e.id), n.value) else inbox
  }

  function WithEvents(inbox: Inbox, events: seq<EventRow>, now: Time): Inbox {
    if events == [] then inbox
    else WithEvent(WithEvents(inbox, events[..|events| - 1], now), events[|events| - 1], now)
  }

  function WithRun(inbox: Inbox, r: RunRow, now: Time): Inbox {
    Inserted(inbox, SyncRun(r.id), RunNotification(r, now))
  }

  function WithRuns(inbox: Inbox, runs: seq<RunRow>, now: Time): Inbox {
    if runs == [] then inbox else WithRun(WithRuns(inbox, runs[..|runs| - 1], now), runs[|runs| - 1], now)
  }

  /** Every event and every failing run, in one sweep. */
  function Projected(inbox: Inbox, events: seq<EventRow>, runs: seq<RunRow>, now: Time): Inbox {
    WithRuns(WithEvents(inbox, events, now), FailingRuns(runs), now)
  }

  // ----- marking read ----------------------------------------------------------------------------

  /** The rows a request selects: unread ones or the ids it lists, of one provider if it names one. */
  predicate Selects(ids: Option<seq<NotificationId>>, provider: string, id: NotificationId, n: Notification) {
    && (if ids.None? then n.readAt.None? else id in ids.value)
    && (provider != "" ==> n.provider == Some(provider))
  }

  /** `COALESCE(read_at, now)`. */
  function Read(n: Notification, now: Time): Notification {
    if n.readAt.Some? then n else n.(readAt := Some(now))
  }

  function Marked(inbox: Inbox, ids: Option<seq<NotificationId>>, provider: string, now: Time): Inbox {
    map id | id in inbox :: if Selects(ids, provider, id, inbox[id]) then Read(inbox[id], now) else inbox[id]
  }

  class NotificationStore {
    var inbox: Inbox

    constructor ()
      ensures inbox == map[]
    {
      inbox := map[];
    }

    method InsertNotification(id: NotificationId, n: Notification)
      modifies this
      ensures inbox == Inserted(old(inbox), id, n)
    {
      if id !in inbox { inbox := inbox[id := n]; }
    }

    method InsertEvents(page: seq<EventRow>, now: Time)
      modifies this
      ensures inbox == WithEvents(old(inbox), page, now)
    {
      for i := 0 to |page|
        invariant inbox == WithEvents(old(inbox), page[..i], now)
      {
        assert page[..i + 1][..i] == page[..i];
        var n := EventNotification(page[i].event, now);
        if n.Some? { InsertNotification(ModelEvent(page[i].id), n.value); }
      }
      assert page[..|page|] == page;
    }

    method InsertRuns(page: seq<RunRow>, now: Time)
      modifies this
      ensures inbox == WithRuns(old(inbox), page, now)
    {
      for i := 0 to |page|
        invariant inbox == WithRuns(old(inbox), page[..i], now)
      {
        assert page[..i + 1][..i] == page[..i];
        InsertNotification(SyncRun(page[i].id), RunNotification(page[i], now));
      }
      assert page[..|page|] == page;
    }

    method ReconcileEvents(events: seq<EventRow>, now: Time, batch: nat)
      requires Ascending(events, EventId) && batch > 0
      modifies this
      ensures inbox == WithEvents(old(inbox), events, now)
    {
      var eventAfter := 0;
      ghost var k := 0;
      while true
        invariant 0 <= k <= |events| && eventAfter == Cursor(events, EventId, k)
        invariant inbox == WithEvents(old(inbox), events[..k], now)
        decreases |events| - k
      {
        var page := Page(events, EventId, eventAfter, batch);
        PageIsNext(events, EventId, k, batch);
        if |page| == 0 { break; }
        InsertEvents(page, now);
        EventsInTwo(old(inbox), events[..k], page, now);
        eventAfter := EventId(page[|page| - 1]);
        k := k + |page|;
      }
      assert events[..k] == events;
    }

    /** `failing` are the rows the query's outcome test lets through. */
    method ReconcileRuns(failing: seq<RunRow>, now: Time, batch: nat)
      requires Ascending(failing, RunId) && batch > 0
      modifies this
      ensures inbox == WithRuns(old(inbox), failing, now)
    {
      var runAfter := 0;
      ghost var k := 0;
      while true
        invariant 0 <= k <= |failing| && runAfter == Cursor(failing, RunId, k)
        invariant inbox == WithRuns(old(inbox), failing[..k], now)
        decreases |failing| - k
      {
        var page := Page(failing, RunId, runAfter, batch);
        PageIsNext(failing, RunId, k, batch);
        if |page| == 0 { break; }
        InsertRuns(page, now);
        RunsInTwo(old(inbox), failing[..k], page, now);
        runAfter := RunId(page[|page| - 1]);
        k := k + |page|;
      }
      assert failing[..k] == failing;
    }

    /** Whatever the batch size, a reconcile ends, having done what one sweep of all rows would. */
    method ReconcileCatalogNotifications(events: seq<EventRow>, runs: seq<RunRow>, now: Time, batch: nat)
      requires Ascending(events, EventId) && Ascending(runs, RunId) && batch > 0
      modifies this
      ensures inbox == Projected(old(inbox), events, runs, now)
    {
      ReconcileEvents(events, now, batch);
      FailingRunsAscend(runs);
      ReconcileRuns(FailingRuns(runs), now, batch);
    }

    method MarkCatalogNotificationsRead(ids: Option<seq<NotificationId>>, provider: string, now: Time)
      returns (changes: nat)
      modifies this
      ensures inbox == Marked(old(inbox), ids, provider, now)
      ensures changes == |set id | id in old(inbox) && Selects(ids, provider, id, old(inbox)[id])|
    {
      if ids.Some? && |ids.value| == 0 {
        assert Marked(inbox, ids, provider, now) == inbox;
        assert (set id | id in inbox && Selects(ids, provider, id, inbox[id])) == {};
        return 0;
      }
      changes := |set id | id in inbox && Selects(ids, provider, id, inbox[id])|;
      inbox := map id | id in inbox ::
        if Selects(ids, provider, id, inbox[id]) then Read(inbox[id], now) else inbox[id];
    }
  }

  lemma {:induction false} EventsInTwo(inbox: Inbox, a: seq<EventRow>, b: seq<EventRow>, now: Time)
    ensures WithEvents(inbox, a + b, now) == WithEvents(WithEvents(inbox, a, now), b, now)
  {
    if b == [] {
      assert a + b == a;
    } else {
      EventsInTwo(inbox, a, b[..|b| - 1], now);
      assert (a + b)[..|a + b| - 1] == a + b[..|b| - 1];
    }
  }

  lemma {:induction false} RunsInTwo(inbox: Inbox, a: seq<RunRow>, b: seq<RunRow>, now: Time)
    ensures WithRuns(inbox, a + b, now) == WithRuns(WithRuns(inbox, a, now), b, now)
  {
    if b == [] {
      assert a + b == a;
    } else {
      RunsInTwo(inbox, a, b[..|b| - 1], now);
      assert (a + b)[..|a + b| - 1] == a + b[..|b| - 1];
    }
  }

  // ----- what is in the inbox ------------------------------------------------------------------------

  predicate Announces(e: EventRow) { EventNotification(e.event, 0).Some? }

  /** What the rows say of an id, whenever they are projected; none if they say nothing. */
  ghost predicate Says(events: seq<EventRow>, runs: seq<RunRow>, id: NotificationId, n: Notification) {
    match id
    case ModelEvent(k) => exists e :: e in events && e.id == k && EventNotification(e.event, n.createdAt) == Some(n)
    case SyncRun(k) => exists r :: r in runs && r.id == k && Failing(r) && RunNotification(r, n.createdAt) == n
  }

  ghost predicate Sourced(events: seq<EventRow>, runs: seq<RunRow>, id: NotificationId) {
    match id
    case ModelEvent(k) => exists e :: e in events && e.id == k && Announces(e)
    case SyncRun(k) => exists r :: r in runs && r.id == k && Failing(r)
  }

  /** Old notifications stay as they were; the rest are the image of the rows, and all of it. */
  ghost predicate IsImage(was: Inbox, events: seq<EventRow>, runs: seq<RunRow>, now: Time, inbox: Inbox) {
    && (forall id :: id in inbox <==> id in was || Sourced(events, runs, id))
    && (forall id | id in was :: id in inbox && inbox[id] == was[id])
    && (forall id | id in inbox && id !in was :: inbox[id].createdAt == now && Says(events, runs, id, inbox[id]))
  }

  lemma EventIsImage(was: Inbox, events: seq<EventRow>, e: EventRow, now: Time, inbox: Inbox)
    requires IsImage(was, events, [], now, inbox)
    ensures IsImage(was, events + [e], [], now, WithEvent(inbox, e, now))
  {
    var all, after := events + [e], WithEvent(inbox, e, now);
    assert e in all && forall x | x in events :: x in all;
    forall id ensures id in after <==> id in was || Sourced(all, [], id) {
      assert Sourced(all, [], id) <==> Sourced(events, [], id) || (id == ModelEvent(e.id) && Announces(e));
    }
    forall id | id in after && id !in was ensures after[id].createdAt == now && Says(all, [], id, after[id]) {
      if id in inbox { assert Says(events, [], id, inbox[id]); }
    }
  }

  lemma {:induction false} EventsAreImage(was: Inbox, events: seq<EventRow>, now: Time)
    ensures IsImage(was, events, [], now, WithEvents(was, events, now))
  {
    if events != [] {
      var n := |events| - 1;
      EventsAreImage(was, events[..n], now);
      EventIsImage(was, events[..n], events[n], now, WithEvents(was, events[..n], now));
      assert events[..n] + [events[n]] == events;
    }
  }

  lemma RunIsImage(was: Inbox, events: seq<EventRow>, runs: seq<RunRow>, r: RunRow, now: Time, inbox: Inbox)
    requires IsImage(was, events, runs, now, inbox) && Failing(r)
    ensures IsImage(was, events, runs + [r], now, Inserted(inbox, SyncRun(r.id), RunNotification(r, now)))
  {
    var all, after := runs + [r], Inserted(inbox, SyncRun(r.id), RunNotification(r, now));
    assert r in all && forall x | x in runs :: x in all;
    forall id ensures id in after <==> id in was || Sourced(events, all, id) {
      assert Sourced(events, all, id) <==> Sourced(events, runs, id) || id == SyncRun(r.id);
    }
    forall id | id in after && id !in was ensures after[id].createdAt == now && Says(events, all, id, after[id]) {
      if id in inbox { assert Says(events, runs, id, inbox[id]); }
    }
  }

  lemma {:induction false} RunsAreImage(was: Inbox, events: seq<EventRow>, runs: seq<RunRow>, now: Time)
    requires forall i | 0 <= i < |runs| :: Failing(runs[i])
    ensures IsImage(was, events, runs, now, WithRuns(WithEvents(was, events, now), runs, now))
  {
    if runs == [] {
      EventsAreImage(was, events, now);
    } else {
      var n := |runs| - 1;
      RunsAreImage(was, events, runs[..n], now);
      RunIsImage(was, events, runs[..n], runs[n], now, WithRuns(WithEvents(was, events, now), runs[..n], now));
      assert runs[..n] + [runs[n]] == runs;
    }
  }

  lemma FailingRunsSaySo(events: seq<EventRow>, runs: seq<RunRow>, id: NotificationId, n: Notification)
    requires Ascending(runs, RunId)
    ensures Sourced(events, FailingRuns(runs), id) == Sourced(events, runs, id)
    ensures Says(events, FailingRuns(runs), id, n) == Says(events, runs, id, n)
  {
    FailingRunsAscend(runs);
  }

  /**
   A reconcile leaves the old notifications untouched and adds exactly the
   image of all events and all failing runs.
   */
  lemma ReconcileIsTheImage(was: Inbox, events: seq<EventRow>, runs: seq<RunRow>, now: Time)
    requires Ascending(runs, RunId)
    ensures IsImage(was, events, runs, now, Projected(was, events, runs, now))
  {
    FailingRunsAscend(runs);
    var failing := FailingRuns(runs);
    forall i | 0 <= i < |failing| ensures Failing(failing[i]) { assert failing[i] in failing; }
    RunsAreImage(was, events, failing, now);
    var inbox := Projected(was, events, runs, now);
    forall id, n ensures Sourced(events, failing, id) == Sourced(events, runs, id)
      && Says(events, failing, id, n) == Says(events, runs, id, n) {
      FailingRunsSaySo(events, runs, id, n);
    }
  }

  /** The rows of `a` are all still there, with the same content, in `b`. */
  ghost predicate Grown(a: seq<EventRow>, b: seq<EventRow>, r: seq<RunRow>, s: seq<RunRow>) {
    && (forall e | e in a :: e in b)
    && (forall x | x in r && Failing(x) :: x in s)
  }

  /** The same notifications, read or unread alike, apart from when each was created. */
  ghost predicate SameNews(a: Inbox, b: Inbox) {
    && a.Keys == b.Keys
    && forall id | id in a :: a[id].(createdAt := 0) == b[id].(createdAt := 0)
  }

  lemma SourcesGrow(a: seq<EventRow>, b: seq<EventRow>, r: seq<RunRow>, s: seq<RunRow>, id: NotificationId)
    requires Grown(a, b, r, s) && Sourced(a, r, id)
    ensures Sourced(b, s, id)
  {
  }

  /** Reconciling twice is reconciling once: nothing is announced again, or otherwise. */
  lemma ReconcileTwiceIsOnce(was: Inbox, events: seq<EventRow>, runs: seq<RunRow>, now: Time, later: Time)
    requires Ascending(runs, RunId)
    ensures var once := Projected(was, events, runs, now);
            Projected(once, events, runs, later) == once
  {
    var once := Projected(was, events, runs, now);
    ReconcileIsTheImage(was, events, runs, now);
    ReconcileIsTheImage(once, events, runs, later);
    var twice := Projected(once, events, runs, later);
    assert forall id :: id in twice <==> id in once;
  }

  lemma SayingsAgree(a: seq<EventRow>, b: seq<EventRow>, r: seq<RunRow>, s: seq<RunRow>,
    id: NotificationId, m: Notification, n: Notification)
    requires Ascending(b, EventId) && Ascending(s, RunId) && Grown(a, b, r, s)
    requires Says(a, r, id, m) && Says(b, s, id, n)
    ensures m.(createdAt := 0) == n.(createdAt := 0)
  {
    match id
    case ModelEvent(k) =>
      var e :| e in a && e.id == k && EventNotification(e.event, m.createdAt) == Some(m);
      var f :| f in b && f.id == k && EventNotification(f.event, n.createdAt) == Some(n);
      OneRowPerId(b, EventId, e, f);
    case SyncRun(k) =>
      var x :| x in r && x.id == k && Failing(x) && RunNotification(x, m.createdAt) == m;
      var y :| y in s && y.id == k && Failing(y) && RunNotification(y, n.createdAt) == n;
      OneRowPerId(s, RunId, x, y);
  }

  lemma OneRowPerId<T(!new)>(rows: seq<T>, id: T -> nat, x: T, y: T)
    requires Ascending(rows, id) && x in rows && y in rows && id(x) == id(y)
    ensures x == y
  {
    var i :| 0 <= i < |rows| && rows[i] == x;
    var j :| 0 <= j < |rows| && rows[j] == y;
  }

  /**
   How often a growing ledger is reconciled on the way does not matter: the
   news at the end is that of a single reconcile at the end.
   */
  lemma ReconcilingOftenIsReconcilingOnce(was: Inbox, a: seq<EventRow>,
    r: seq<RunRow>, b: seq<EventRow>, s: seq<RunRow>,
                                          t: Time, u: Time, v: Time)
    requires Ascending(r, RunId) && Ascending(b, EventId) && Ascending(s, RunId) && Grown(a, b, r, s)
    ensures SameNews(Projected(Projected(was, a, r, t), b, s, u), Projected(was, b, s, v))
  {
    var early := Projected(was, a, r, t);
    var often, once := Projected(early, b, s, u), Projected(was, b, s, v);
    ReconcileIsTheImage(was, a, r, t);
    ReconcileIsTheImage(early, b, s, u);
    ReconcileIsTheImage(was, b, s, v);
    forall id ensures id in often <==> id in once {
      if Sourced(a, r, id) { SourcesGrow(a, b, r, s, id); }
    }
    forall id | id in often ensures often[id].(createdAt := 0) == once[id].(createdAt := 0) {
      if id in was {
      } else if id in early {
        SayingsAgree(a, b, r, s, id, early[id], once[id]);
      } else {
        assert Grown(b, b, s, s);
        SayingsAgree(b, b, s, s, id, often[id], once[id]);
      }
    }
  }

  // ----- read marks ------------------------------------------------------------------------------------

  datatype Act = Reconcile(events: seq<EventRow>, runs: seq<RunRow>, at: Time)
               | MarkRead(ids: Option<seq<NotificationId>>, provider: string, at: Time)

  function After(inbox: Inbox, acts: seq<Act>): Inbox {
    if acts == [] then inbox
    else
      var before := After(inbox, acts[..|acts| - 1]);
      match acts[|acts| - 1]
      case Reconcile(events, runs, at) => Projected(before, events, runs, at)
      case MarkRead(ids, provider, at) => Marked(before, ids, provider, at)
  }

  /** Nothing is lost, a read notification is frozen, and an unread one can only become read. */
  ghost predicate Preserves(a: Inbox, b: Inbox) {
    forall id | id in a ::
      && id in b
      && (a[id].readAt.Some? ==> b[id] == a[id])
      && b[id].(readAt := a[id].readAt) == a[id]
  }

  lemma {:induction false} RunsPreserve(inbox: Inbox, runs: seq<RunRow>, now: Time)
    ensures Preserves(inbox, WithRuns(inbox, runs, now))
  {
    if runs != [] { RunsPreserve(inbox, runs[..|runs| - 1], now); }
  }

  lemma {:induction false} EventsPreserve(inbox: Inbox, events: seq<EventRow>, now: Time)
    ensures Preserves(inbox, WithEvents(inbox, events, now))
  {
    if events != [] { EventsPreserve(inbox, events[..|events| - 1], now); }
  }

  lemma PreservingTwice(a: Inbox, b: Inbox, c: Inbox)
    requires Preserves(a, b) && Preserves(b, c)
    ensures Preserves(a, c)
  {
    forall id | id in a ensures id in c && (a[id].readAt.Some? ==> c[id] == a[id])
      && c[id].(readAt := a[id].readAt) == a[id] {
      assert c[id].(readAt := b[id].readAt) == b[id];
    }
  }

  /** A read mark once set survives every later reconcile and mark-read, time and all. */
  lemma {:induction false} ReadMarksAreFinal(inbox: Inbox, acts: seq<Act>)
    ensures Preserves(inbox, After(inbox, acts))
  {
    if acts != [] {
      var before := After(inbox, acts[..|acts| - 1]);
      ReadMarksAreFinal(inbox, acts[..|acts| - 1]);
      match acts[|acts| - 1] {
        case Reconcile(events, runs, at) =>
          EventsPreserve(before, events, at);
          RunsPreserve(WithEvents(before, events, at), FailingRuns(runs), at);
          PreservingTwice(before, WithEvents(before, events, at), Projected(before, events, runs, at));
        case MarkRead(ids, provider, at) =>
          assert Preserves(before, Marked(before, ids, provider, at));
      }
      PreservingTwice(inbox, before, After(inbox, acts));
    }
  }

  /** After everything of a provider was marked read, nothing of it is unread. */
  lemma MarkingAllReadsAll(inbox: Inbox, provider: string, now: Time, id: NotificationId)
    requires id in inbox && (provider != "" ==> inbox[id].provider == Some(provider))
    ensures Marked(inbox, None, provider, now)[id].readAt.Some?
  {
  }

  // ----- which rows make which news --------------------------------------------------------------------

  /** What an event of this kind is announced as; nothing for most kinds. */
  lemma NewsOfEvent(was: Inbox, events: seq<EventRow>, runs: seq<RunRow>, now: Time, e: EventRow)
    requires Ascending(events, EventId) && Ascending(runs, RunId) && e in events && ModelEvent(e.id) !in was
    ensures var inbox, id, p, m, at := Projected(was, events, runs, now), ModelEvent(e.id),
                                       e.event.provider, e.event.model, e.event.at;
            && (e.event.kind == Added ==>
                  id in inbox && inbox[id] ==
                  Notification(Success, ModelAdded, ModelJoins(p, m), Joined, Some(p), Some(m), at, None, now))
            && (e.event.kind.Readded? ==>
                  id in inbox && inbox[id] ==
                  Notification(Success, ModelAdded, ModelJoins(p, m), Restored, Some(p), Some(m), at, None, now))
            && (e.event.kind.Removed? ==>
                  id in inbox && inbox[id] ==
                  Notification(Error, ModelRetired, ModelGoes(p, m), Gone, Some(p), Some(m), at, None, now))
            && (e.event.kind != Added && !e.event.kind.Readded? && !e.event.kind.Removed? ==> id !in inbox)
  {
    ReconcileIsTheImage(was, events, runs, now);
    var inbox := Projected(was, events, runs, now);
    forall x | x in events && x.id == e.id ensures x == e { OneRowPerId(events, EventId, x, e); }
    assert Sourced(events, runs, ModelEvent(e.id)) <==> Announces(e);
    if ModelEvent(e.id) in inbox { assert Says(events, runs, ModelEvent(e.id), inbox[ModelEvent(e.id)]); }
  }

  /** A failed or quarantined run is a warning, of its provider or of none; any other run is no news. */
  lemma NewsOfRun(was: Inbox, events: seq<EventRow>, runs: seq<RunRow>, now: Time, r: RunRow)
    requires Ascending(events, EventId) && Ascending(runs, RunId) && r in runs && SyncRun(r.id) !in was
    ensures var inbox, id := Projected(was, events, runs, now), SyncRun(r.id);
            var at := if r.finishedAt == None then r.startedAt else r.finishedAt.value;
            && (id in inbox <==> r.outcome in {Some(Failed), Some(Quarantined)})
            && (id in inbox && r.provider == "catalog-shared-sources" ==>
                  inbox[id] == Notification(Warning, FetchProblem, SourcesNeedAttention, SharedSourcesUnread,
                                            None, None, at, None, now))
            && (id in inbox && r.provider != "catalog-shared-sources" ==>
                  inbox[id] == Notification(Warning, FetchProblem, ProviderNeedsAttention(r.provider), ProviderUnread,
                                            Some(r.provider), None, at, None, now))
  {
    ReconcileIsTheImage(was, events, runs, now);
    var inbox := Projected(was, events, runs, now);
    forall x | x in runs && x.id == r.id ensures x == r { OneRowPerId(runs, RunId, x, r); }
    assert Sourced(events, runs, SyncRun(r.id)) <==> Failing(r);
    if SyncRun(r.id) in inbox { assert Says(events, runs, SyncRun(r.id), inbox[SyncRun(r.id)]); }
  }

  /** Marking reads exactly the unread ones asked for, by id or all of them, and of one provider if it is named. */
  lemma MarkedExactly(inbox: Inbox, ids: Option<seq<NotificationId>>, provider: string, now: Time, id: NotificationId)
    ensures Marked(inbox, ids, provider, now).Keys == inbox.Keys
    ensures id in inbox ==>
              var was := inbox[id];
              Marked(inbox, ids, provider, now)[id] ==
              if && was.readAt == None && (ids == None || id in ids.value)
                 && (provider == "" || was.provider == Some(provider))
              then was.(readAt := Some(now)) else was
  {
  }
}
