/**
 catalog/server/auto-evaluation.ts: what a sync does about the offers it can
 still measure. Every offer is planned, triaged, and then bought cheapest first
 under an optional ceiling.
 */
module AutoEvaluation {
  import opened Sequences
  import opened Sorting
  import opened Wrappers

  datatype Offer = Offer(provider: string, model: string)

  /** `rank` is the offer's place in the label order that breaks ties between equal estimates. */
  datatype Planned = Planned(offer: Offer, rank: int, blocked: Option<string>, identity: Option<string>, requests: nat)

  datatype SkipReason =
    | BlockedPlan(reason: string)
    | AlreadyCovered | DuplicateIdentity | RetryCooldown | OverBudget | AlreadyQueued

  datatype Skip = Skip(entry: Planned, reason: SkipReason)

  /** What the queue says to one offer. */
  datatype Answer = Accepts | HasIt | Refuses(reason: string)

  datatype Report = Report(committed: nat, enqueued: seq<Planned>, skipped: seq<Skip>)

  /** `lastAttempt` has the identities that were ever measured; `now` and it are in milliseconds. */
  datatype Config = Config(enabled: bool, ceiling: Option<nat>, cooldown: int, now: int, lastAttempt: map<string, int>)

  predicate CoolingDown(c: Config, identity: Option<string>) {
    identity.Some? && c.cooldown > 0 && identity.value in c.lastAttempt
      && c.now - c.lastAttempt[identity.value] < c.cooldown
  }

  // ----- triage -------------------------------------------------------------------

  function IdentitiesOf(es: seq<Planned>): set<string> {
    set e | e in es && e.identity.Some? :: e.identity.value
  }

  /** Why an offer is not a candidate, given the identities already taken by earlier ones. */
  function Rejection(c: Config, e: Planned, taken: set<string>): Option<SkipReason> {
    if e.blocked.Some? then Some(BlockedPlan(e.blocked.value))
    else if e.requests == 0 then Some(AlreadyCovered)
    else if e.identity.Some? && e.identity.value in taken then Some(DuplicateIdentity)
    else if CoolingDown(c, e.identity) then Some(RetryCooldown)
    else None
  }

  /** The deduplicated candidates among the planned offers, in order. */
  function Candidates(c: Config, es: seq<Planned>): seq<Planned> {
    if es == [] then []
    else
      var front, e := Candidates(c, es[..|es| - 1]), es[|es| - 1];
      if Rejection(c, e, IdentitiesOf(front)).None? then front + [e] else front
  }

  function Triaged(c: Config, es: seq<Planned>): seq<Skip> {
    if es == [] then []
    else
      var e := es[|es| - 1];
      var why := Rejection(c, e, IdentitiesOf(Candidates(c, es[..|es| - 1])));
      Triaged(c, es[..|es| - 1]) + if why.Some? then [Skip(e, why.value)] else []
  }

  function EntriesOf(skips: seq<Skip>): seq<Planned> {
    seq(|skips|, i requires 0 <= i < |skips| => skips[i].entry)
  }

  ghost predicate OneOfEachIdentity(es: seq<Planned>) {
    forall i, j | 0 <= i < j < |es| && es[i].identity.Some? :: es[i].identity != es[j].identity
  }

  /** One more offer goes to exactly one side. */
  lemma OneMoreOffer(front: seq<Planned>, taken: seq<Planned>, left: seq<Planned>, e: Planned)
    requires multiset(front) == multiset(taken) + multiset(left)
    ensures multiset(front + [e]) == multiset(taken + [e]) + multiset(left)
    ensures multiset(front + [e]) == multiset(taken) + multiset(left + [e])
  {
    assert multiset(front + [e]) == multiset(front) + multiset{e};
    assert multiset(taken + [e]) == multiset(taken) + multiset{e};
    assert multiset(left + [e]) == multiset(left) + multiset{e};
  }

  lemma TriageOneMore(c: Config, front: seq<Planned>, e: Planned)
    ensures var taken := Candidates(c, front);
            var why := Rejection(c, e, IdentitiesOf(taken));
            && Candidates(c, front + [e]) == (if why.None? then taken + [e] else taken)
            && EntriesOf(Triaged(c, front + [e])) ==
               if why.Some? then EntriesOf(Triaged(c, front)) + [e] else EntriesOf(Triaged(c, front))
  {
    assert (front + [e])[..|front|] == front;
  }

  lemma {:induction false} TriagePartitions(c: Config, es: seq<Planned>)
    ensures multiset(es) == multiset(Candidates(c, es)) + multiset(EntriesOf(Triaged(c, es)))
  {
    if es != [] {
      var front, e := es[..|es| - 1], es[|es| - 1];
      TriagePartitions(c, front);
      assert es == front + [e];
      TriageOneMore(c, front, e);
      OneMoreOffer(front, Candidates(c, front), EntriesOf(Triaged(c, front)), e);
    }
  }

  lemma {:induction false} CandidatesAreWorthIt(c: Config, es: seq<Planned>)
    ensures OneOfEachIdentity(Candidates(c, es))
    ensures forall e | e in Candidates(c, es) :: IsWorthIt(e) && !JustTried(c, e)
  {
    if es != [] {
      CandidatesAreWorthIt(c, es[..|es| - 1]);
      var front := Candidates(c, es[..|es| - 1]);
      assert forall i | 0 <= i < |front| :: front[i] in front;
    }
  }

  // ----- why an offer is skipped ----------------------------------------------------------

  /** It can be measured, and something is left to measure. */
  predicate IsWorthIt(e: Planned) { e.blocked == None && e.requests > 0 }

  /** Its identity was measured less than the cooldown ago. */
  predicate JustTried(c: Config, e: Planned) {
    && c.cooldown > 0 && e.identity != None && e.identity.value in c.lastAttempt
    && c.now - c.lastAttempt[e.identity.value] < c.cooldown
  }

  /** An offer before this one is worth it and has the same identity. */
  predicate ComesAgain(front: seq<Planned>, e: Planned) {
    e.identity != None && exists i :: 0 <= i < |front| && IsWorthIt(front[i]) && front[i].identity == e.identity
  }

  lemma {:induction false} TakenExactly(c: Config, es: seq<Planned>, e: Planned)
    requires e.identity.Some? && !JustTried(c, e)
    ensures e.identity.value in IdentitiesOf(Candidates(c, es)) <==> ComesAgain(es, e)
  {
    if es != [] {
      var front, last := es[..|es| - 1], es[|es| - 1];
      TakenExactly(c, front, e);
      assert forall i | 0 <= i < |front| :: front[i] == es[i];
      TakenNow(c, front, last, e);
      assert es == front + [last];
    }
  }

  lemma TakenNow(c: Config, front: seq<Planned>, last: Planned, e: Planned)
    requires e.identity.Some? && !JustTried(c, e)
    requires e.identity.value in IdentitiesOf(Candidates(c, front)) <==> ComesAgain(front, e)
    ensures e.identity.value in IdentitiesOf(Candidates(c, front + [last])) <==>
            ComesAgain(front, e) || (IsWorthIt(last) && last.identity == e.identity)
  {
    var taken := Candidates(c, front);
    assert (front + [last])[..|front|] == front;
    var now := Candidates(c, front + [last]);
    if now == taken + [last] {
      assert last in now && forall x | x in taken :: x in now;
    }
  }

  /**
   Offer by offer: one that is blocked, or covered, or just tried, or comes again
   with the identity of one before it is skipped for that; any other is a candidate.
   */
  lemma OfferByOffer(c: Config, front: seq<Planned>, e: Planned)
    ensures var now, skips := Candidates(c, front + [e]), Triaged(c, front + [e]);
            if e.blocked != None then
              now == Candidates(c, front) && skips == Triaged(c, front) + [Skip(e, BlockedPlan(e.blocked.value))]
            else if e.requests == 0 then
              now == Candidates(c, front) && skips == Triaged(c, front) + [Skip(e, AlreadyCovered)]
            else if JustTried(c, e) then
              now == Candidates(c, front) && skips == Triaged(c, front) + [Skip(e, RetryCooldown)]
            else if ComesAgain(front, e) then
              now == Candidates(c, front) && skips == Triaged(c, front) + [Skip(e, DuplicateIdentity)]
            else now == Candidates(c, front) + [e] && skips == Triaged(c, front)
    ensures Candidates(c, []) == [] && Triaged(c, []) == []
  {
    assert (front + [e])[..|front|] == front;
    if e.identity.Some? {
      if JustTried(c, e) { NeverTaken(c, front, e); } else { TakenExactly(c, front, e); }
    }
  }

  lemma NeverTaken(c: Config, front: seq<Planned>, e: Planned)
    requires e.identity.Some? && JustTried(c, e)
    ensures e.identity.value !in IdentitiesOf(Candidates(c, front))
  {
    CandidatesAreWorthIt(c, front);
  }

  // ----- cheapest first ---------------------------------------------------------------

  predicate NoLater(a: Planned, b: Planned) {
    a.requests < b.requests || (a.requests == b.requests && a.rank <= b.rank)
  }

  ghost predicate CheapestFirst(es: seq<Planned>) {
    forall i, j | 0 <= i < j < |es| :: NoLater(es[i], es[j])
  }

  method SortCheapestFirst(es: seq<Planned>) returns (sorted: seq<Planned>)
    ensures multiset(sorted) == multiset(es)
    ensures CheapestFirst(sorted)
    ensures forall i, j | 0 <= i < j < |sorted| :: sorted[i].requests <= sorted[j].requests
    ensures forall i, j | 0 <= i < j < |sorted| && sorted[i].requests == sorted[j].requests ::
              sorted[i].rank <= sorted[j].rank
  {
    var a := new Planned[|es|](i requires 0 <= i < |es| => es[i]);
    assert a[..] == es;
    Sort(a, NoLater);
    sorted := a[..];
    SortingPermutes(es, NoLater);
    NoLaterRanks();
    SortingOrders(es, NoLater);
    assert forall i, j | 0 <= i < j < |sorted| :: NoLater(sorted[i], sorted[j]);
  }

  lemma NoLaterRanks()
    ensures Ranking(NoLater)
  {
  }

  // ----- the budget ---------------------------------------------------------------------

  function Cost(es: seq<Planned>): nat {
    if es == [] then 0 else Cost(es[..|es| - 1]) + es[|es| - 1].requests
  }

  predicate Affords(ceiling: Option<nat>, cost: nat) {
    ceiling.None? || cost <= ceiling.value
  }

  ghost predicate AlwaysAccepts(answers: nat -> Answer, n: nat) {
    forall i: nat | i < n :: answers(i).Accepts?
  }

  function QueueReason(a: Answer): SkipReason {
    match a
    case Refuses(reason) => BlockedPlan(reason)
    case _ => AlreadyQueued
  }

  /** What one candidate makes of the report, given the queue's answer if it is asked. */
  function BuyNext(r: Report, ceiling: Option<nat>, e: Planned, a: Answer): Report {
    if !Affords(ceiling, r.committed + e.requests) then r.(skipped := r.skipped + [Skip(e, OverBudget)])
    else if !a.Accepts? then r.(skipped := r.skipped + [Skip(e, QueueReason(a))])
    else Report(r.committed + e.requests, r.enqueued + [e], r.skipped)
  }

  /** `answers(i)` is the queue's answer to the i-th candidate in buying order. */
  function BuyAll(ceiling: Option<nat>, sorted: seq<Planned>, answers: nat -> Answer): Report {
    if sorted == [] then Report(0, [], [])
    else
      var n := |sorted| - 1;
      BuyNext(BuyAll(ceiling, sorted[..n], answers), ceiling, sorted[n], answers(n))
  }

  method Buy(ceiling: Option<nat>, sorted: seq<Planned>, answers: nat -> Answer) returns (r: Report)
    ensures r == BuyAll(ceiling, sorted, answers)
  {
    r := Report(0, [], []);
    for i := 0 to |sorted|
      invariant r == BuyAll(ceiling, sorted[..i], answers)
    {
      var e := sorted[i];
      assert sorted[..i + 1][..i] == sorted[..i];
      if ceiling.Some? && r.committed + e.requests > ceiling.value {
        r := r.(skipped := r.skipped + [Skip(e, OverBudget)]);
        continue;
      }
      var outcome := answers(i);
      if !outcome.Accepts? {
        r := r.(skipped := r.skipped + [Skip(e, QueueReason(outcome))]);
        continue;
      }
      r := r.(committed := r.committed + e.requests, enqueued := r.enqueued + [e]);
    }
    assert sorted[..|sorted|] == sorted;
  }

  /** Candidate by candidate: what no longer fits the ceiling is over budget, and the rest is up to the queue. */
  lemma CandidateByCandidate(ceiling: Option<nat>, front: seq<Planned>, e: Planned, answers: nat -> Answer)
    ensures var was, now := BuyAll(ceiling, front, answers), BuyAll(ceiling, front + [e], answers);
            var skip := (why: SkipReason) => now == was.(skipped := was.skipped + [Skip(e, why)]);
            if ceiling != None && was.committed + e.requests > ceiling.value then skip(OverBudget)
            else match answers(|front|)
                 case Accepts => now == Report(was.committed + e.requests, was.enqueued + [e], was.skipped)
                 case HasIt => skip(AlreadyQueued)
                 case Refuses(why) => skip(BlockedPlan(why))
    ensures BuyAll(ceiling, [], answers) == Report(0, [], [])
  {
    assert (front + [e])[..|front|] == front;
  }

  function Everything(r: Report): multiset<Planned> {
    multiset(r.enqueued) + multiset(EntriesOf(r.skipped))
  }

  lemma OneMoreEntry(r: Report, ceiling: Option<nat>, e: Planned, a: Answer)
    ensures Everything(BuyNext(r, ceiling, e, a)) == Everything(r) + multiset{e}
  {
    assert forall why :: EntriesOf(r.skipped + [Skip(e, why)]) == EntriesOf(r.skipped) + [e];
  }

  lemma {:induction false} BuyingPartitions(ceiling: Option<nat>, sorted: seq<Planned>, answers: nat -> Answer)
    ensures multiset(sorted) == Everything(BuyAll(ceiling, sorted, answers))
  {
    if sorted != [] {
      var n := |sorted| - 1;
      BuyingPartitions(ceiling, sorted[..n], answers);
      OneMoreEntry(BuyAll(ceiling, sorted[..n], answers), ceiling, sorted[n], answers(n));
      assert sorted == sorted[..n] + [sorted[n]];
    }
  }

  lemma {:induction false} BudgetHolds(ceiling: Option<nat>, sorted: seq<Planned>, answers: nat -> Answer)
    ensures var r := BuyAll(ceiling, sorted, answers);
            r.committed == Cost(r.enqueued) && Affords(ceiling, r.committed)
  {
    if sorted != [] {
      var n := |sorted| - 1;
      BudgetHolds(ceiling, sorted[..n], answers);
      var before := BuyAll(ceiling, sorted[..n], answers);
      assert (before.enqueued + [sorted[n]])[..|before.enqueued|] == before.enqueued;
    }
  }

  /** With every answer a yes, what is bought is a prefix that ends where the budget does. */
  lemma {:induction false} BuysAPrefix(ceiling: Option<nat>, sorted: seq<Planned>, answers: nat -> Answer)
    requires CheapestFirst(sorted) && AlwaysAccepts(answers, |sorted|)
    ensures var r := BuyAll(ceiling, sorted, answers);
            && r.enqueued <= sorted
            && (|r.enqueued| < |sorted| ==> !Affords(ceiling, r.committed + sorted[|r.enqueued|].requests))
  {
    if sorted != [] {
      var n := |sorted| - 1;
      BuysAPrefix(ceiling, sorted[..n], answers);
      var before := BuyAll(ceiling, sorted[..n], answers);
      assert |before.enqueued| < n ==> NoLater(sorted[|before.enqueued|], sorted[n]);
    }
  }

  // ----- no choice buys more ----------------------------------------------------------------

  lemma {:induction false} CostWithout(es: seq<Planned>, j: nat)
    requires j < |es|
    ensures Cost(es) == Cost(Without(es, j)) + es[j].requests
  {
    var front, last := es[..|es| - 1], es[|es| - 1];
    if j == |es| - 1 {
      assert Without(es, j) == front;
    } else {
      CostWithout(front, j);
      assert Without(es, j) == Without(front, j) + [last];
    }
  }

  /** No selection of m entries is cheaper than the first m of a cheapest-first list. */
  lemma {:induction false} CheapestSelection(sorted: seq<Planned>, sel: seq<Planned>)
    requires CheapestFirst(sorted) && multiset(sel) <= multiset(sorted)
    ensures |sel| <= |sorted| && Cost(sorted[..|sel|]) <= Cost(sel)
    decreases |sorted|
  {
    if sorted == [] {
      assert |multiset(sel)| == 0;
    } else {
      var front, last := sorted[..|sorted| - 1], sorted[|sorted| - 1];
      if last in sel {
        var j :| 0 <= j < |sel| && sel[j] == last;
        var rest := Without(sel, j);
        CostWithout(sel, j);
        MultisetWithout(sel, j);
        FrontHolds(sorted, multiset(rest), multiset(sel));
        CheapestSelection(front, rest);
        LastIsDearest(sorted, rest, Cost(sel));
      } else {
        WithoutLast(sorted, sel);
        CheapestSelection(front, sel);
        assert sorted[..|sel|] == front[..|sel|];
      }
    }
  }

  lemma FrontHolds(sorted: seq<Planned>, rest: multiset<Planned>, sel: multiset<Planned>)
    requires sorted != [] && sel <= multiset(sorted) && rest == sel - multiset{sorted[|sorted| - 1]}
    ensures rest <= multiset(sorted[..|sorted| - 1])
  {
    assert sorted == sorted[..|sorted| - 1] + [sorted[|sorted| - 1]];
  }

  lemma WithoutLast(sorted: seq<Planned>, sel: seq<Planned>)
    requires sorted != [] && multiset(sel) <= multiset(sorted) && sorted[|sorted| - 1] !in sel
    ensures multiset(sel) <= multiset(sorted[..|sorted| - 1])
  {
    assert multiset(sel) - multiset{sorted[|sorted| - 1]} == multiset(sel);
    FrontHolds(sorted, multiset(sel), multiset(sel));
  }

  lemma LastIsDearest(sorted: seq<Planned>, rest: seq<Planned>, cost: nat)
    requires sorted != [] && CheapestFirst(sorted) && |rest| <= |sorted| - 1
    requires Cost(sorted[..|sorted| - 1][..|rest|]) <= Cost(rest)
    requires cost == Cost(rest) + sorted[|sorted| - 1].requests
    ensures Cost(sorted[..|rest| + 1]) <= cost
  {
    assert sorted[..|sorted| - 1][..|rest|] == sorted[..|rest|];
    CostOfPrefix(sorted, |rest|);
    assert |rest| < |sorted| - 1 ==> NoLater(sorted[|rest|], sorted[|sorted| - 1]);
  }

  lemma CostOfPrefix(sorted: seq<Planned>, n: nat)
    requires n < |sorted|
    ensures Cost(sorted[..n + 1]) == Cost(sorted[..n]) + sorted[n].requests
  {
    assert sorted[..n + 1][..n] == sorted[..n];
  }

  lemma {:induction false} CostGrows(sorted: seq<Planned>, m: nat, n: nat)
    requires m <= n <= |sorted|
    ensures Cost(sorted[..m]) <= Cost(sorted[..n])
  {
    if m < n {
      CostOfPrefix(sorted, n - 1);
      CostGrows(sorted, m, n - 1);
    }
  }

  /** The bought prefix ended at an entry that no longer fitted, so no longer prefix fits. */
  lemma NoLongerPrefixFits(ceiling: Option<nat>, sorted: seq<Planned>, bought: nat, m: nat)
    requires bought < m <= |sorted|
    requires !Affords(ceiling, Cost(sorted[..bought]) + sorted[bought].requests)
    ensures !Affords(ceiling, Cost(sorted[..m]))
  {
    CostOfPrefix(sorted, bought);
    CostGrows(sorted, bought + 1, m);
  }

  lemma GreedyIsOptimal(ceiling: Option<nat>, sorted: seq<Planned>, bought: nat, sel: seq<Planned>)
    requires CheapestFirst(sorted) && bought <= |sorted|
    requires bought < |sorted| ==> !Affords(ceiling, Cost(sorted[..bought]) + sorted[bought].requests)
    requires multiset(sel) <= multiset(sorted) && Affords(ceiling, Cost(sel))
    ensures |sel| <= bought
  {
    CheapestSelection(sorted, sel);
    if |sel| > bought {
      NoLongerPrefixFits(ceiling, sorted, bought, |sel|);
    }
  }

  // ----- the whole sweep ---------------------------------------------------------------------

  /** No affordable choice among the candidates has more entries than `enqueued`. */
  ghost predicate LargestAffordable(ceiling: Option<nat>, candidates: seq<Planned>, enqueued: seq<Planned>) {
    forall sel: seq<Planned> | multiset(sel) <= multiset(candidates) && Affords(ceiling, Cost(sel)) ::
      |sel| <= |enqueued|
  }

  /** Each offer is in exactly one of the two lists, no identity is bought twice, and the ceiling holds. */
  ghost predicate Sound(c: Config, planned: seq<Planned>, r: Report) {
    && multiset(planned) == multiset(r.enqueued) + multiset(EntriesOf(r.skipped))
    && multiset(r.enqueued) <= multiset(Candidates(c, planned))
    && OneOfEachIdentity(r.enqueued)
    && r.committed == Cost(r.enqueued) && Affords(c.ceiling, r.committed)
    && Triaged(c, planned) <= r.skipped
  }

  /**
   An enabled sweep is sound, and a queue that accepts everything is given the
   largest number of candidates any budget-respecting choice could give it.
   */
  method AutoEvaluate(c: Config, planned: seq<Planned>, answers: nat -> Answer) returns (r: Report)
    ensures !c.enabled ==> r == Report(0, [], [])
    ensures c.ceiling != None ==> r.committed <= c.ceiling.value
    ensures c.enabled ==> Sound(c, planned, r)
    ensures c.enabled && AlwaysAccepts(answers, |Candidates(c, planned)|) ==>
              LargestAffordable(c.ceiling, Candidates(c, planned), r.enqueued)
  {
    if !c.enabled { return Report(0, [], []); }
    var candidates, triaged := Triage(c, planned);
    var sorted := SortCheapestFirst(candidates);
    var bought := Buy(c.ceiling, sorted, answers);
    r := bought.(skipped := triaged + bought.skipped);
    SweepIsSound(c, planned, sorted, answers);
    if AlwaysAccepts(answers, |candidates|) {
      SweepIsLargest(c, candidates, sorted, answers);
    }
  }

  lemma SweepIsSound(c: Config, planned: seq<Planned>, sorted: seq<Planned>, answers: nat -> Answer)
    requires multiset(sorted) == multiset(Candidates(c, planned))
    ensures var bought := BuyAll(c.ceiling, sorted, answers);
            Sound(c, planned, bought.(skipped := Triaged(c, planned) + bought.skipped))
  {
    BudgetHolds(c.ceiling, sorted, answers);
    BuyingPartitions(c.ceiling, sorted, answers);
    AllAccountedFor(c, planned, BuyAll(c.ceiling, sorted, answers));
  }

  lemma SweepIsLargest(c: Config, candidates: seq<Planned>, sorted: seq<Planned>, answers: nat -> Answer)
    requires multiset(sorted) == multiset(candidates) && CheapestFirst(sorted)
    requires AlwaysAccepts(answers, |candidates|)
    ensures LargestAffordable(c.ceiling, candidates, BuyAll(c.ceiling, sorted, answers).enqueued)
  {
    SameSize(sorted, candidates);
    BudgetHolds(c.ceiling, sorted, answers);
    BuysAPrefix(c.ceiling, sorted, answers);
    PrefixIsLargest(c.ceiling, candidates, sorted, BuyAll(c.ceiling, sorted, answers).enqueued);
  }

  lemma AllAccountedFor(c: Config, planned: seq<Planned>, bought: Report)
    requires Everything(bought) == multiset(Candidates(c, planned))
    ensures multiset(planned) == multiset(bought.enqueued) + multiset(EntriesOf(Triaged(c, planned) + bought.skipped))
    ensures multiset(bought.enqueued) <= multiset(Candidates(c, planned))
    ensures OneOfEachIdentity(bought.enqueued)
  {
    TriagePartitions(c, planned);
    EntriesAppend(Triaged(c, planned), bought.skipped);
    CandidatesAreWorthIt(c, planned);
    IdentitiesStayApart(Candidates(c, planned), bought.enqueued);
  }

  lemma EntriesAppend(a: seq<Skip>, b: seq<Skip>)
    ensures multiset(EntriesOf(a + b)) == multiset(EntriesOf(a)) + multiset(EntriesOf(b))
  {
    assert EntriesOf(a + b) == EntriesOf(a) + EntriesOf(b);
  }

  lemma PrefixIsLargest(ceiling: Option<nat>, candidates: seq<Planned>, sorted: seq<Planned>, enqueued: seq<Planned>)
    requires multiset(sorted) == multiset(candidates) && CheapestFirst(sorted) && enqueued <= sorted
    requires |enqueued| < |sorted| ==> !Affords(ceiling, Cost(enqueued) + sorted[|enqueued|].requests)
    ensures LargestAffordable(ceiling, candidates, enqueued)
  {
    assert enqueued == sorted[..|enqueued|];
    forall sel: seq<Planned> | multiset(sel) <= multiset(candidates) && Affords(ceiling, Cost(sel))
      ensures |sel| <= |enqueued|
    {
      GreedyIsOptimal(ceiling, sorted, |enqueued|, sel);
    }
  }

  method Triage(c: Config, planned: seq<Planned>) returns (candidates: seq<Planned>, skipped: seq<Skip>)
    ensures candidates == Candidates(c, planned)
    ensures skipped == Triaged(c, planned)
  {
    candidates, skipped := [], [];
    var taken: set<string> := {};
    for i := 0 to |planned|
      invariant candidates == Candidates(c, planned[..i])
      invariant skipped == Triaged(c, planned[..i])
      invariant taken == IdentitiesOf(candidates)
    {
      var e := planned[i];
      assert planned[..i + 1][..i] == planned[..i];
      var why := Rejection(c, e, taken);
      if why.Some? {
        skipped := skipped + [Skip(e, why.value)];
      } else {
        assert IdentitiesOf(candidates + [e]) == IdentitiesOf(candidates) + IdentitiesOf([e]);
        if e.identity.Some? {
          assert e in [e];
          taken := taken + {e.identity.value};
        }
        candidates := candidates + [e];
      }
    }
    assert planned[..|planned|] == planned;
  }

  /** An identity held once by the candidates is held at most once by any choice of them. */
  lemma IdentitiesStayApart(candidates: seq<Planned>, chosen: seq<Planned>)
    requires OneOfEachIdentity(candidates) && multiset(chosen) <= multiset(candidates)
    ensures OneOfEachIdentity(chosen)
  {
    forall i, j | 0 <= i < j < |chosen| && chosen[i].identity.Some?
      ensures chosen[i].identity != chosen[j].identity
    {
      if chosen[i].identity == chosen[j].identity {
        assert multiset(chosen)[chosen[i]] > 0 && multiset(chosen)[chosen[j]] > 0;
        var a :| 0 <= a < |candidates| && candidates[a] == chosen[i];
        var b :| 0 <= b < |candidates| && candidates[b] == chosen[j];
        if a == b {
          TwiceMeansTwo(chosen, i, j);
          OnceMeansOne(candidates, a);
        }
      }
    }
  }

  lemma TwiceMeansTwo(es: seq<Planned>, i: nat, j: nat)
    requires i < j < |es| && es[i] == es[j]
    ensures multiset(es)[es[i]] >= 2
  {
    assert es == es[..i] + [es[i]] + es[i + 1..j] + [es[j]] + es[j + 1..];
  }

  lemma OnceMeansOne(es: seq<Planned>, a: nat)
    requires OneOfEachIdentity(es) && a < |es| && es[a].identity.Some?
    ensures multiset(es)[es[a]] == 1
  {
    var before, after := es[..a], es[a + 1..];
    assert es == before + [es[a]] + after;
    assert es[a] !in before && es[a] !in after;
  }
}
