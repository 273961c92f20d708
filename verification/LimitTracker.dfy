/** The script that rebuilds the user limit trackers from past operations, and its bookkeeping on the operations. */
module LimitTracker {
  import opened Division
  import opened PageOneLoop
  import opened Wrappers

  const PAGE_SIZE := 100
  const DAY := 86400000
  /** Days start three hours after they do in UTC. */
  const UTC_OFFSET := 10800000

  datatype PeriodStart = DATE | INTERVAL

  datatype Check = OWNER | BENEFICIARY | BOTH

  datatype Tag =
    | DATE_LIMIT_INCLUDED
    | DAILY_INTERVAL_LIMIT_INCLUDED
    | MONTHLY_INTERVAL_LIMIT_INCLUDED
    | ANNUAL_INTERVAL_LIMIT_INCLUDED

  /** The four counters of a tracker. */
  datatype Window = Daily | Monthly | Annual | Nightly

  datatype LimitType = LimitType(id: nat, periodStart: Option<PeriodStart>, currency: nat, check: Check)

  /** A user has one limit per limit type, and a limit has one tracker. */
  datatype LimitKey = LimitKey(user: nat, limitType: nat)

  datatype Tracker = Tracker(id: nat, daily: int, monthly: int, annual: int, nightly: int)

  /** `open` is whether the state is PENDING or ACCEPTED; `tags` and `tracker` are null until the script marks it. */
  datatype Operation = Operation(
    transactionType: nat,
    currency: nat,
    open: bool,
    owner: Option<nat>,
    beneficiary: Option<nat>,
    createdAt: int,
    value: int,
    tags: Option<seq<Tag>>,
    tracker: Option<nat>)

  /** One moment and the starts of the calendar and of the rolling periods that end with it. */
  datatype Clock = Clock(
    now: int,
    startOfDay: int, startOfMonth: int, startOfYear: int,
    dayAgo: int, monthAgo: int, yearAgo: int)
  {
    ghost predicate Ordered() {
      startOfYear <= startOfMonth <= startOfDay <= now && yearAgo <= monthAgo <= dayAgo <= now
    }
  }

  /**
   * What a run does not change: the limit type of each transaction type (none if it was not found), the limit types
   * with a global limit, the limits inside their night at this moment, and the moment.
   */
  datatype Setup = Setup(limitTypes: map<nat, LimitType>, globalLimits: set<nat>, nights: set<LimitKey>, clock: Clock)

  function StartOfDay(t: int): int {
    t - (t - UTC_OFFSET) % DAY
  }

  function EndOfDay(t: int): int {
    StartOfDay(t) + DAY - 1
  }

  /** The first moment a counter looks back to. */
  function WindowStart(c: Clock, p: PeriodStart, w: Window): int {
    match w
    case Daily => if p.DATE? then c.startOfDay else c.dayAgo
    case Monthly => if p.DATE? then c.startOfMonth else c.monthAgo
    case _ => if p.DATE? then c.startOfYear else c.yearAgo
  }

  /** The limit an operation counts towards, if it has one or gets one. */
  function KeyOf(s: Setup, limits: set<LimitKey>, op: Operation): Option<LimitKey> {
    if op.transactionType !in s.limitTypes then None
    else
      var lt := s.limitTypes[op.transactionType];
      var user := match lt.check
        case BOTH => if op.owner.Some? then op.owner else op.beneficiary
        case OWNER => op.owner
        case BENEFICIARY => op.beneficiary;
      if user.None? || user.value == 0 then None
      else if LimitKey(user.value, lt.id) in limits || lt.id in s.globalLimits then Some(LimitKey(user.value, lt.id))
      else None
  }

  /** The party of an operation that a limit type checks: the owner, the beneficiary, or whichever there is. */
  predicate IsParty(lt: LimitType, op: Operation, user: nat) {
    match lt.check
    case OWNER => op.owner == Some(user)
    case BENEFICIARY => op.beneficiary == Some(user)
    case BOTH => op.owner == Some(user) || (op.owner.None? && op.beneficiary == Some(user))
  }

  /** Limit types whose period start is known. */
  predicate Valid(s: Setup, tt: nat) {
    tt in s.limitTypes && s.limitTypes[tt].periodStart.Some?
  }

  predicate InWindow(s: Setup, op: Operation, key: LimitKey, w: Window)
    requires Valid(s, op.transactionType)
  {
    if w.Nightly? then key in s.nights
    else op.createdAt >= WindowStart(s.clock, s.limitTypes[op.transactionType].periodStart.value, w)
  }

  predicate Counts(s: Setup, op: Operation, key: LimitKey)
    requires Valid(s, op.transactionType)
  {
    || InWindow(s, op, key, Daily) || InWindow(s, op, key, Monthly)
    || InWindow(s, op, key, Annual) || InWindow(s, op, key, Nightly)
  }

  /** The tags that record what was counted. */
  function TagsFor(s: Setup, op: Operation, key: LimitKey): seq<Tag>
    requires Valid(s, op.transactionType)
  {
    if s.limitTypes[op.transactionType].periodStart.value.DATE? then
      if Counts(s, op, key) then [DATE_LIMIT_INCLUDED] else []
    else
      (if InWindow(s, op, key, Daily) then [DAILY_INTERVAL_LIMIT_INCLUDED] else [])
      + (if InWindow(s, op, key, Monthly) then [MONTHLY_INTERVAL_LIMIT_INCLUDED] else [])
      + (if InWindow(s, op, key, Annual) then [ANNUAL_INTERVAL_LIMIT_INCLUDED] else [])
  }

  /** The query for operations of one transaction type that were never marked. */
  predicate Matches(s: Setup, op: Operation, tt: nat, from: int, to: int) {
    && tt in s.limitTypes
    && op.open && op.transactionType == tt && op.currency == s.limitTypes[tt].currency
    && op.tags.None? && op.tracker.None?
    && StartOfDay(from) <= op.createdAt <= EndOfDay(to)
  }

  /** The query's result among the first n operations. */
  function Eligible(s: Setup, ops: seq<Operation>, tt: nat, from: int, to: int, n: nat): (ids: seq<nat>)
    requires n <= |ops|
    ensures forall i :: 0 <= i < |ids| ==> ids[i] < n && Matches(s, ops[ids[i]], tt, from, to)
    ensures forall i, j :: 0 <= i < j < |ids| ==> ids[i] < ids[j]
  {
    if n == 0 then []
    else Eligible(s, ops, tt, from, to, n - 1) + (if Matches(s, ops[n - 1], tt, from, to) then [n - 1] else [])
  }

  /** Operations without a limit to count towards; marking changes none of this. */
  function Stuck(s: Setup, limits: set<LimitKey>, ops: seq<Operation>): set<nat> {
    set i: nat | i < |ops| && KeyOf(s, limits, ops[i]).None?
  }

  function Counter(t: Tracker, w: Window): int {
    match w
    case Daily => t.daily
    case Monthly => t.monthly
    case Annual => t.annual
    case Nightly => t.nightly
  }

  function Used(trackers: map<LimitKey, Tracker>, key: LimitKey, w: Window): int {
    if key in trackers then Counter(trackers[key], w) else 0
  }

  /** What counting an operation for its limit adds to a counter. */
  function Gain(s: Setup, op: Operation, key: LimitKey, w: Window): int
    requires Valid(s, op.transactionType)
  {
    if InWindow(s, op, key, w) then op.value else 0
  }

  /** `after` is `before` marked with the tags of what it counted for. */
  ghost predicate MarkedAs(s: Setup, limits: set<LimitKey>, before: Operation, after: Operation) {
    && Valid(s, before.transactionType) && KeyOf(s, limits, before).Some?
    && before.tags.None? && before.tracker.None? && after.tracker.Some?
    && after == before.(tags := Some(TagsFor(s, before, KeyOf(s, limits, before).value)), tracker := after.tracker)
  }

  /** Nothing but marking has happened. */
  ghost predicate Progress(s: Setup, limits: set<LimitKey>, before: seq<Operation>, after: seq<Operation>) {
    && |before| == |after|
    && forall i :: 0 <= i < |before| ==> after[i] == before[i] || MarkedAs(s, limits, before[i], after[i])
  }

  /** Exactly the operations that match and have a limit were marked. */
  ghost predicate Passed(s: Setup, limits: set<LimitKey>, before: seq<Operation>, after: seq<Operation>,
                         tt: nat, from: int, to: int) {
    && |before| == |after|
    && forall i :: 0 <= i < |before| ==>
         if Matches(s, before[i], tt, from, to) && KeyOf(s, limits, before[i]).Some?
         then MarkedAs(s, limits, before[i], after[i]) else after[i] == before[i]
  }

  /** What a newly marked operation adds to a counter of a limit. */
  function Share(s: Setup, limits: set<LimitKey>, before: Operation, after: Operation, key: LimitKey, w: Window): int {
    if before.tags.None? && after.tags.Some? && KeyOf(s, limits, before) == Some(key)
       && Valid(s, before.transactionType) && InWindow(s, before, key, w)
    then before.value else 0
  }

  ghost predicate SharesAdded(s: Setup, limits: set<LimitKey>, before: Operation, after: Operation,
                              trackers: map<LimitKey, Tracker>, trackers': map<LimitKey, Tracker>) {
    forall k, w :: Used(trackers', k, w) == Used(trackers, k, w) + Share(s, limits, before, after, k, w)
  }

  /** The sum over the newly marked among the first n operations, each once, in table order. */
  function Growth(s: Setup, limits: set<LimitKey>, before: seq<Operation>, after: seq<Operation>, n: nat,
                  key: LimitKey, w: Window): int
    requires n <= |before| == |after|
  {
    if n == 0 then 0
    else Growth(s, limits, before, after, n - 1, key, w) + Share(s, limits, before[n - 1], after[n - 1], key, w)
  }

  /** Every counter has grown by its sum. */
  ghost predicate Tallied(s: Setup, limits: set<LimitKey>, before: seq<Operation>, after: seq<Operation>,
                          trackers: map<LimitKey, Tracker>, trackers': map<LimitKey, Tracker>)
    requires |before| == |after|
  {
    forall key, w ::
      Used(trackers', key, w) == Used(trackers, key, w) + Growth(s, limits, before, after, |before|, key, w)
  }

  // ----- Lemmas on the table -----

  lemma {:induction false} GrowthOfMark(s: Setup, limits: set<LimitKey>, before: seq<Operation>, after: seq<Operation>,
                                        n: nat, i: nat, op: Operation, key: LimitKey, w: Window)
    requires n <= |before| == |after| && i < |before| && after[i] == before[i] && before[i].tags.None?
    ensures Growth(s, limits, before, after[i := op], n, key, w)
      == Growth(s, limits, before, after, n, key, w) + (if i < n then Share(s, limits, before[i], op, key, w) else 0)
  {
    if n > 0 { GrowthOfMark(s, limits, before, after, n - 1, i, op, key, w); }
  }

  lemma {:induction false} NoGrowth(s: Setup, limits: set<LimitKey>, ops: seq<Operation>, n: nat, key: LimitKey,
                                    w: Window)
    requires n <= |ops|
    ensures Growth(s, limits, ops, ops, n, key, w) == 0
  {
    if n > 0 { NoGrowth(s, limits, ops, n - 1, key, w); }
  }

  lemma {:induction false} GrowthAdds(s: Setup, limits: set<LimitKey>, a: seq<Operation>, b: seq<Operation>,
                                      c: seq<Operation>, n: nat, key: LimitKey, w: Window)
    requires Progress(s, limits, a, b) && Progress(s, limits, b, c) && n <= |a|
    ensures Growth(s, limits, a, c, n, key, w)
      == Growth(s, limits, a, b, n, key, w) + Growth(s, limits, b, c, n, key, w)
  {
    if n > 0 { GrowthAdds(s, limits, a, b, c, n - 1, key, w); }
  }

  lemma TalliedTransitive(s: Setup, limits: set<LimitKey>, a: seq<Operation>, b: seq<Operation>, c: seq<Operation>,
                          ta: map<LimitKey, Tracker>, tb: map<LimitKey, Tracker>, tc: map<LimitKey, Tracker>)
    requires Progress(s, limits, a, b) && Progress(s, limits, b, c)
    requires Tallied(s, limits, a, b, ta, tb) && Tallied(s, limits, b, c, tb, tc)
    ensures Tallied(s, limits, a, c, ta, tc)
  {
    forall key, w
      ensures Used(tc, key, w) == Used(ta, key, w) + Growth(s, limits, a, c, |a|, key, w)
    {
      GrowthAdds(s, limits, a, b, c, |a|, key, w);
    }
  }

  lemma {:induction false} EligibleHas(s: Setup, ops: seq<Operation>, tt: nat, from: int, to: int, n: nat, i: nat)
    requires n <= |ops| && i < n
    ensures i in Eligible(s, ops, tt, from, to, n) <==> Matches(s, ops[i], tt, from, to)
  {
    if i < n - 1 { EligibleHas(s, ops, tt, from, to, n - 1, i); }
  }

  /** A marked operation leaves the result list; the others keep their order. */
  lemma {:induction false} EligibleAfterMark(s: Setup, ops: seq<Operation>, tt: nat, from: int, to: int, n: nat,
                                             a: seq<nat>, i: nat, b: seq<nat>, op: Operation)
    requires n <= |ops| && i < |ops|
    requires Eligible(s, ops, tt, from, to, n) == a + [i] + b && op.tags.Some?
    ensures Eligible(s, ops[i := op], tt, from, to, n) == a + b
  {
    var ids := Eligible(s, ops, tt, from, to, n);
    if n > 0 {
      assert ids[|a|] == i;
      var front := Eligible(s, ops, tt, from, to, n - 1);
      if i == n - 1 {
        assert ids[|ids| - 1] == i;
        assert b == [];
        assert a == ids[..|ids| - 1] == front;
        EligibleFrame(s, ops, ops[i := op], tt, from, to, n - 1);
      } else if Matches(s, ops[n - 1], tt, from, to) {
        assert b != [] && b[|b| - 1] == n - 1 by { assert ids[|ids| - 1] == n - 1; }
        assert front == ids[..|ids| - 1] == a + [i] + b[..|b| - 1];
        EligibleAfterMark(s, ops, tt, from, to, n - 1, a, i, b[..|b| - 1], op);
      } else {
        EligibleAfterMark(s, ops, tt, from, to, n - 1, a, i, b, op);
      }
    }
  }

  lemma {:induction false} EligibleFrame(s: Setup, ops: seq<Operation>, ops': seq<Operation>, tt: nat, from: int,
                                         to: int, n: nat)
    requires n <= |ops| && n <= |ops'| && ops[..n] == ops'[..n]
    ensures Eligible(s, ops, tt, from, to, n) == Eligible(s, ops', tt, from, to, n)
  {
    if n > 0 {
      assert ops[..n - 1] == ops[..n][..n - 1] && ops'[..n - 1] == ops'[..n][..n - 1];
      assert ops[n - 1] == ops[..n][n - 1] && ops'[n - 1] == ops'[..n][n - 1];
      EligibleFrame(s, ops, ops', tt, from, to, n - 1);
    }
  }

  /** Marking leaves limits, and so the stuck operations, as they are. */
  lemma StuckFrame(s: Setup, limits: set<LimitKey>, before: seq<Operation>, after: seq<Operation>)
    requires Progress(s, limits, before, after)
    ensures Stuck(s, limits, before) == Stuck(s, limits, after)
  {
  }

  /** Limits are only created where a global limit makes every operation of that type countable anyway. */
  ghost predicate GrownFrom(s: Setup, limits: set<LimitKey>, limits': set<LimitKey>) {
    limits <= limits' && forall k :: k in limits' && k !in limits ==> k.limitType in s.globalLimits
  }

  lemma KeyOfStable(s: Setup, limits: set<LimitKey>, limits': set<LimitKey>, op: Operation)
    requires GrownFrom(s, limits, limits')
    ensures KeyOf(s, limits', op) == KeyOf(s, limits, op)
  {
  }

  lemma GrownTransitive(s: Setup, a: set<LimitKey>, b: set<LimitKey>, c: set<LimitKey>)
    requires GrownFrom(s, a, b) && GrownFrom(s, b, c)
    ensures GrownFrom(s, a, c)
  {
  }

  /** Only operations the query matches were marked, and the counters were told. */
  ghost predicate Worked(s: Setup, limits: set<LimitKey>, before: seq<Operation>, after: seq<Operation>,
                         trackers: map<LimitKey, Tracker>, trackers': map<LimitKey, Tracker>, tt: nat, from: int,
                         to: int) {
    && Progress(s, limits, before, after)
    && (forall i :: 0 <= i < |before| && after[i] != before[i] ==> Matches(s, before[i], tt, from, to))
    && Tallied(s, limits, before, after, trackers, trackers')
  }

  lemma NothingWorked(s: Setup, limits: set<LimitKey>, ops: seq<Operation>, trackers: map<LimitKey, Tracker>,
                      tt: nat, from: int, to: int)
    ensures Worked(s, limits, ops, ops, trackers, trackers, tt, from, to)
  {
    forall key, w
      ensures Used(trackers, key, w) == Used(trackers, key, w) + Growth(s, limits, ops, ops, |ops|, key, w)
    {
      NoGrowth(s, limits, ops, |ops|, key, w);
    }
  }

  /** One more operation: its share is told once, whatever limits were created meanwhile. */
  lemma WorkedOneMore(s: Setup, limits: set<LimitKey>, limits': set<LimitKey>, before: seq<Operation>,
                      mid: seq<Operation>, after: seq<Operation>, i: nat, ta: map<LimitKey, Tracker>,
                      tb: map<LimitKey, Tracker>, tc: map<LimitKey, Tracker>, tt: nat, from: int, to: int)
    requires Worked(s, limits, before, mid, ta, tb, tt, from, to) && GrownFrom(s, limits, limits')
    requires i < |mid| == |after| && after == mid[i := after[i]]
    requires Matches(s, mid[i], tt, from, to) && MarkedAs(s, limits', mid[i], after[i])
    requires SharesAdded(s, limits', mid[i], after[i], tb, tc)
    ensures Worked(s, limits, before, after, ta, tc, tt, from, to)
  {
    assert mid[i] == before[i];
    KeyOfStable(s, limits, limits', mid[i]);
    forall key, w
      ensures Used(tc, key, w) == Used(ta, key, w) + Growth(s, limits, before, after, |before|, key, w)
    {
      GrowthOfMark(s, limits, before, mid, |before|, i, after[i], key, w);
      assert Share(s, limits, mid[i], after[i], key, w) == Share(s, limits', mid[i], after[i], key, w);
    }
  }

  /** With nothing but stuck operations left in the result list, the pass is complete. */
  lemma WorkedThrough(s: Setup, limits: set<LimitKey>, before: seq<Operation>, after: seq<Operation>,
                      trackers: map<LimitKey, Tracker>, trackers': map<LimitKey, Tracker>, tt: nat, from: int, to: int)
    requires Worked(s, limits, before, after, trackers, trackers', tt, from, to)
    requires forall i :: i in Eligible(s, after, tt, from, to, |after|) ==> i in Stuck(s, limits, before)
    ensures Passed(s, limits, before, after, tt, from, to)
  {
    forall i: nat | i < |before| && after[i] == before[i] && Matches(s, before[i], tt, from, to)
      ensures KeyOf(s, limits, before[i]).None?
    {
      EligibleHas(s, after, tt, from, to, |after|, i);
    }
  }

  /** In the middle of a page: what was skipped, then what was not reached. */
  ghost predicate Reached(s: Setup, ops: seq<Operation>, found: seq<nat>, k: nat, stuck: set<nat>, tt: nat, from: int,
                          to: int)
    requires k <= |found|
  {
    Eligible(s, ops, tt, from, to, |ops|) == Left(found[..k], stuck) + found[k..]
  }

  lemma ReachedNext(s: Setup, ops: seq<Operation>, found: seq<nat>, k: nat, stuck: set<nat>, tt: nat, from: int,
                    to: int)
    requires k < |found| && Reached(s, ops, found, k, stuck, tt, from, to)
    ensures found[k] < |ops| && Matches(s, ops[found[k]], tt, from, to)
  {
    var left, ids := Left(found[..k], stuck), Eligible(s, ops, tt, from, to, |ops|);
    assert ids[|left|] == found[k];
  }

  /** Skipping a stuck operation or marking another. */
  lemma ReachedStep(s: Setup, ops: seq<Operation>, after: seq<Operation>, found: seq<nat>, k: nat, stuck: set<nat>,
                    tt: nat, from: int, to: int)
    requires k < |found| && Reached(s, ops, found, k, stuck, tt, from, to) && found[k] < |ops| == |after|
    requires if found[k] in stuck then after == ops
      else after == ops[found[k] := after[found[k]]] && after[found[k]].tags.Some?
    ensures Reached(s, after, found, k + 1, stuck, tt, from, to)
  {
    var i, left, rest := found[k], Left(found[..k], stuck), found[k + 1..];
    assert found[k..] == [i] + rest;
    assert left + found[k..] == left + [i] + rest;
    assert found[..k + 1] == found[..k] + [i];
    LeftConcat(found[..k], [i], stuck);
    if i !in stuck {
      EligibleAfterMark(s, ops, tt, from, to, |ops|, left, i, rest, after[i]);
      assert Left([i], stuck) == [];
    } else {
      assert Left([i], stuck) == [i] by { assert [i][1..] == []; }
    }
  }

  lemma {:induction false} GrowthStable(s: Setup, limits: set<LimitKey>, limits': set<LimitKey>, a: seq<Operation>,
                                        b: seq<Operation>, n: nat, key: LimitKey, w: Window)
    requires GrownFrom(s, limits, limits') && n <= |a| == |b|
    ensures Growth(s, limits', a, b, n, key, w) == Growth(s, limits, a, b, n, key, w)
  {
    if n > 0 {
      GrowthStable(s, limits, limits', a, b, n - 1, key, w);
      KeyOfStable(s, limits, limits', a[n - 1]);
    }
  }

  lemma ProgressStable(s: Setup, limits: set<LimitKey>, limits': set<LimitKey>, a: seq<Operation>, b: seq<Operation>)
    requires GrownFrom(s, limits, limits') && Progress(s, limits', a, b)
    ensures Progress(s, limits, a, b)
  {
    forall i: nat | i < |a| && b[i] != a[i]
      ensures MarkedAs(s, limits, a[i], b[i])
    {
      KeyOfStable(s, limits, limits', a[i]);
    }
  }

  lemma StuckStable(s: Setup, limits: set<LimitKey>, limits': set<LimitKey>, ops: seq<Operation>)
    requires GrownFrom(s, limits, limits')
    ensures Stuck(s, limits', ops) == Stuck(s, limits, ops)
  {
    forall i: nat | i < |ops|
      ensures i in Stuck(s, limits', ops) <==> i in Stuck(s, limits, ops)
    {
      KeyOfStable(s, limits, limits', ops[i]);
    }
  }

  lemma TalliedStable(s: Setup, limits: set<LimitKey>, limits': set<LimitKey>, a: seq<Operation>, b: seq<Operation>,
                      ta: map<LimitKey, Tracker>, tb: map<LimitKey, Tracker>)
    requires GrownFrom(s, limits, limits') && |a| == |b| && Tallied(s, limits', a, b, ta, tb)
    ensures Tallied(s, limits, a, b, ta, tb)
  {
    forall key, w
      ensures Used(tb, key, w) == Used(ta, key, w) + Growth(s, limits, a, b, |a|, key, w)
    {
      GrowthStable(s, limits, limits', a, b, |a|, key, w);
    }
  }

  /** One stretch of work after another, with the limits the first created. */
  lemma WorkedTransitive(s: Setup, limits: set<LimitKey>, limits': set<LimitKey>, a: seq<Operation>, b: seq<Operation>,
                         c: seq<Operation>, ta: map<LimitKey, Tracker>, tb: map<LimitKey, Tracker>,
                         tc: map<LimitKey, Tracker>, tt: nat, from: int, to: int)
    requires Worked(s, limits, a, b, ta, tb, tt, from, to) && GrownFrom(s, limits, limits')
    requires Worked(s, limits', b, c, tb, tc, tt, from, to)
    ensures Worked(s, limits, a, c, ta, tc, tt, from, to)
  {
    ProgressStable(s, limits, limits', b, c);
    TalliedStable(s, limits, limits', b, c, tb, tc);
    TalliedTransitive(s, limits, a, b, c, ta, tb, tc);
  }

  /** A fetch of more than a page keeps the loop draining and shrinks the list; another leaves only what is stuck. */
  lemma FetchLeaves(found: seq<nat>, stuck: set<nat>)
    requires Drains(found, stuck, PAGE_SIZE)
    ensures |found| > PAGE_SIZE ==> Drains(AfterFetch(found, stuck, PAGE_SIZE), stuck, PAGE_SIZE)
    ensures |found| > PAGE_SIZE ==> |AfterFetch(found, stuck, PAGE_SIZE)| < |found|
    ensures |found| <= PAGE_SIZE ==> forall i :: i in AfterFetch(found, stuck, PAGE_SIZE) ==> i in stuck
  {
    if |found| > PAGE_SIZE {
      DrainingShrinks(found, stuck, PAGE_SIZE);
      FetchKeepsDrains(found, stuck, PAGE_SIZE);
    } else {
      assert AfterFetch(found, stuck, PAGE_SIZE) == Left(found, stuck);
      forall i | i in Left(found, stuck)
        ensures i in stuck
      {
        LeftMembers(found, stuck, i);
      }
    }
  }

  // ----- Passes over several types -----

  /** Selected by the monthly pass of one of the first types or by the annual pass of one of the second. */
  predicate Due(s: Setup, op: Operation, monthly: seq<nat>, annual: seq<nat>) {
    && Valid(s, op.transactionType)
    && var p := s.limitTypes[op.transactionType].periodStart.value;
       || (op.transactionType in monthly
           && Matches(s, op, op.transactionType, WindowStart(s.clock, p, Monthly), s.clock.now))
       || (op.transactionType in annual
           && Matches(s, op, op.transactionType, WindowStart(s.clock, p, Annual), s.clock.now))
  }

  /** Exactly the due operations with a limit were marked. */
  ghost predicate PassedAll(s: Setup, limits: set<LimitKey>, before: seq<Operation>, after: seq<Operation>,
                            monthly: seq<nat>, annual: seq<nat>) {
    && |before| == |after|
    && forall i :: 0 <= i < |before| ==>
         if Due(s, before[i], monthly, annual) && KeyOf(s, limits, before[i]).Some?
         then MarkedAs(s, limits, before[i], after[i]) else after[i] == before[i]
  }

  /** One more pass marks exactly what it makes due: what an earlier pass marked no query finds again. */
  lemma {:induction false} PassedOneMore(s: Setup, limits: set<LimitKey>, limits': set<LimitKey>,
                                         before: seq<Operation>, mid: seq<Operation>, after: seq<Operation>,
                                         monthly: seq<nat>, annual: seq<nat>, tt: nat, w: Window)
    requires PassedAll(s, limits, before, mid, monthly, annual) && GrownFrom(s, limits, limits')
    requires Valid(s, tt) && (w.Monthly? || w.Annual?)
    requires var from := WindowStart(s.clock, s.limitTypes[tt].periodStart.value, w);
      Passed(s, limits', mid, after, tt, from, s.clock.now)
    ensures w.Monthly? ==> PassedAll(s, limits, before, after, monthly + [tt], annual)
    ensures w.Annual? ==> PassedAll(s, limits, before, after, monthly, annual + [tt])
  {
    var m, a := if w.Monthly? then monthly + [tt] else monthly, if w.Annual? then annual + [tt] else annual;
    forall i: nat | i < |before|
      ensures if Due(s, before[i], m, a) && KeyOf(s, limits, before[i]).Some?
              then MarkedAs(s, limits, before[i], after[i]) else after[i] == before[i]
    {
      KeyOfStable(s, limits, limits', before[i]);
      KeyOfStable(s, limits, limits', mid[i]);
    }
  }

  /** A type without a period start selects nothing. */
  lemma PassedInvalid(s: Setup, limits: set<LimitKey>, before: seq<Operation>, after: seq<Operation>,
                      monthly: seq<nat>, annual: seq<nat>, monthly': seq<nat>, annual': seq<nat>)
    requires PassedAll(s, limits, before, after, monthly, annual)
    requires forall tt :: Valid(s, tt) ==> (tt in monthly <==> tt in monthly') && (tt in annual <==> tt in annual')
    ensures PassedAll(s, limits, before, after, monthly', annual')
  {
    forall i: nat | i < |before|
      ensures Due(s, before[i], monthly, annual) == Due(s, before[i], monthly', annual')
    {
    }
  }

  lemma PassedProgress(s: Setup, limits: set<LimitKey>, before: seq<Operation>, after: seq<Operation>,
                       tt: nat, from: int, to: int)
    requires Passed(s, limits, before, after, tt, from, to)
    ensures Progress(s, limits, before, after)
  {
  }

  lemma PassedAllProgress(s: Setup, limits: set<LimitKey>, before: seq<Operation>, after: seq<Operation>,
                          monthly: seq<nat>, annual: seq<nat>)
    requires PassedAll(s, limits, before, after, monthly, annual)
    ensures Progress(s, limits, before, after)
  {
  }

  lemma StartOfDayMonotone(t: int, u: int)
    requires t <= u
    ensures StartOfDay(t) <= StartOfDay(u)
  {
    var a, b := t - UTC_OFFSET, u - UTC_OFFSET;
    assert a == DAY * (a / DAY) + a % DAY && b == DAY * (b / DAY) + b % DAY;
  }

  /** The monthly passes select nothing the annual passes would not. */
  lemma MonthlyWithinAnnual(s: Setup, op: Operation, tt: nat)
    requires s.clock.Ordered() && Valid(s, tt)
    requires Matches(s, op, tt, WindowStart(s.clock, s.limitTypes[tt].periodStart.value, Monthly), s.clock.now)
    ensures Matches(s, op, tt, WindowStart(s.clock, s.limitTypes[tt].periodStart.value, Annual), s.clock.now)
  {
    var p := s.limitTypes[tt].periodStart.value;
    StartOfDayMonotone(WindowStart(s.clock, p, Annual), WindowStart(s.clock, p, Monthly));
  }

  /** Monthly passes followed by annual passes over the same types come to the annual passes alone. */
  lemma {:induction false} MonthlyThenAnnual(s: Setup, limits: set<LimitKey>, before: seq<Operation>,
                                             after: seq<Operation>, types: seq<nat>)
    requires s.clock.Ordered()
    ensures PassedAll(s, limits, before, after, types, types) <==> PassedAll(s, limits, before, after, [], types)
  {
    forall i: nat | i < |before|
      ensures Due(s, before[i], types, types) == Due(s, before[i], [], types)
    {
      if Due(s, before[i], types, types) && !Due(s, before[i], [], types) {
        MonthlyWithinAnnual(s, before[i], before[i].transactionType);
      }
    }
  }

  /**
   * The run is determined by the operations it starts from, whatever the order of the types: the same operations get
   * the same tags, and every counter grows by the same amount.
   */
  lemma {:induction false} OrderIrrelevant(s: Setup, limits: set<LimitKey>, before: seq<Operation>, types: seq<nat>,
                                           after: seq<Operation>, types': seq<nat>, after': seq<Operation>, n: nat,
                                           key: LimitKey, w: Window)
    requires forall tt :: tt in types <==> tt in types'
    requires PassedAll(s, limits, before, after, [], types) && PassedAll(s, limits, before, after', [], types')
    requires n <= |before|
    ensures forall i :: 0 <= i < n ==> after'[i] == after[i].(tracker := after'[i].tracker)
    ensures Growth(s, limits, before, after', n, key, w) == Growth(s, limits, before, after, n, key, w)
  {
    if n > 0 { OrderIrrelevant(s, limits, before, types, after, types', after', n - 1, key, w); }
  }

  /** For each type with a known period start, fewer operations without a limit than fill a page. */
  ghost predicate FewStuck(s: Setup, limits: set<LimitKey>, ops: seq<Operation>, types: seq<nat>) {
    forall tt :: tt in types && Valid(s, tt) ==>
      |Left(Eligible(s, ops, tt, WindowStart(s.clock, s.limitTypes[tt].periodStart.value, Annual), s.clock.now, |ops|),
            Stuck(s, limits, ops))| < 100
  }

  lemma LeftOfNext(s: Setup, ops: seq<Operation>, tt: nat, from: int, to: int, n: nat, stuck: set<nat>)
    requires 0 < n <= |ops|
    ensures |Left(Eligible(s, ops, tt, from, to, n), stuck)|
      == |Left(Eligible(s, ops, tt, from, to, n - 1), stuck)|
         + (if Matches(s, ops[n - 1], tt, from, to) && n - 1 in stuck then 1 else 0)
  {
    hide Matches;
    var ids := Eligible(s, ops, tt, from, to, n - 1);
    if Matches(s, ops[n - 1], tt, from, to) {
      LeftConcat(ids, [n - 1], stuck);
      assert [n - 1][1..] == [];
    } else {
      assert ids + [] == ids;
    }
  }

  lemma {:induction false} FewerLeft(s: Setup, ops: seq<Operation>, from: int, ops': seq<Operation>, from': int,
                                     tt: nat, to: int, n: nat, stuck: set<nat>)
    requires n <= |ops| && n <= |ops'|
    requires forall i :: 0 <= i < n && Matches(s, ops'[i], tt, from', to) ==> Matches(s, ops[i], tt, from, to)
    ensures |Left(Eligible(s, ops', tt, from', to, n), stuck)| <= |Left(Eligible(s, ops, tt, from, to, n), stuck)|
  {
    hide Matches;
    if n == 0 {
      assert Eligible(s, ops', tt, from', to, 0) == [];
    } else {
      FewerLeft(s, ops, from, ops', from', tt, to, n - 1, stuck);
      LeftOfNext(s, ops, tt, from, to, n, stuck);
      LeftOfNext(s, ops', tt, from', to, n, stuck);
    }
  }

  /** The result list of a pass of the run. */
  function Selected(s: Setup, ops: seq<Operation>, tt: nat, w: Window): (ids: seq<nat>)
    requires Valid(s, tt)
    ensures forall i :: 0 <= i < |ids| ==> ids[i] < |ops|
  {
    Eligible(s, ops, tt, WindowStart(s.clock, s.limitTypes[tt].periodStart.value, w), s.clock.now, |ops|)
  }

  /** What the monthly pass of a type marks. */
  function Served(s: Setup, limits: set<LimitKey>, ops: seq<Operation>, tt: nat): set<nat>
    requires Valid(s, tt)
  {
    set i: nat | i < |ops| && KeyOf(s, limits, ops[i]).Some?
      && Matches(s, ops[i], tt, WindowStart(s.clock, s.limitTypes[tt].periodStart.value, Monthly), s.clock.now)
  }

  /** What the annual pass of a type finds after the monthly pass. */
  function FoundAnnually(s: Setup, limits: set<LimitKey>, ops: seq<Operation>, tt: nat): seq<nat>
    requires Valid(s, tt)
  {
    Rest(Selected(s, ops, tt, Annual), Served(s, limits, ops, tt))
  }

  /** For each type with a known period start, both passes drain. */
  ghost predicate Drainable(s: Setup, limits: set<LimitKey>, ops: seq<Operation>, types: seq<nat>) {
    forall tt :: tt in types && Valid(s, tt) ==>
      && Drains(Selected(s, ops, tt, Monthly), Stuck(s, limits, ops), PAGE_SIZE)
      && Drains(FoundAnnually(s, limits, ops, tt), Stuck(s, limits, ops), PAGE_SIZE)
  }

  /** Which is exactly when all loops of the run end. */
  lemma RunEndsExactly(s: Setup, limits: set<LimitKey>, ops: seq<Operation>, types: seq<nat>)
    ensures Drainable(s, limits, ops, types) <==>
      (forall tt :: tt in types && Valid(s, tt) ==>
         && Terminates(Selected(s, ops, tt, Monthly), Stuck(s, limits, ops), PAGE_SIZE)
         && Terminates(FoundAnnually(s, limits, ops, tt), Stuck(s, limits, ops), PAGE_SIZE))
  {
    forall tt | tt in types && Valid(s, tt)
      ensures Terminates(Selected(s, ops, tt, Monthly), Stuck(s, limits, ops), PAGE_SIZE)
        <==> Drains(Selected(s, ops, tt, Monthly), Stuck(s, limits, ops), PAGE_SIZE)
      ensures Terminates(FoundAnnually(s, limits, ops, tt), Stuck(s, limits, ops), PAGE_SIZE)
        <==> Drains(FoundAnnually(s, limits, ops, tt), Stuck(s, limits, ops), PAGE_SIZE)
    {
      TerminatesExactly(Selected(s, ops, tt, Monthly), Stuck(s, limits, ops), PAGE_SIZE);
      TerminatesExactly(FoundAnnually(s, limits, ops, tt), Stuck(s, limits, ops), PAGE_SIZE);
    }
  }

  lemma AnnualLeft(s: Setup, limits: set<LimitKey>, ops: seq<Operation>, tt: nat)
    requires Valid(s, tt)
    ensures Left(FoundAnnually(s, limits, ops, tt), Stuck(s, limits, ops))
      == Left(Selected(s, ops, tt, Annual), Stuck(s, limits, ops))
  {
    RestKeepsLeft(Selected(s, ops, tt, Annual), Served(s, limits, ops, tt), Stuck(s, limits, ops));
  }

  /** Fewer stuck operations than fill a page in each annual window are few enough. */
  lemma FewStuckDrain(s: Setup, limits: set<LimitKey>, ops: seq<Operation>, types: seq<nat>)
    requires s.clock.Ordered() && FewStuck(s, limits, ops, types)
    ensures Drainable(s, limits, ops, types)
  {
    forall tt | tt in types && Valid(s, tt)
      ensures Drains(Selected(s, ops, tt, Monthly), Stuck(s, limits, ops), PAGE_SIZE)
      ensures Drains(FoundAnnually(s, limits, ops, tt), Stuck(s, limits, ops), PAGE_SIZE)
    {
      var p := s.limitTypes[tt].periodStart.value;
      var from, from' := WindowStart(s.clock, p, Annual), WindowStart(s.clock, p, Monthly);
      forall i: nat | i < |ops| && Matches(s, ops[i], tt, from', s.clock.now)
        ensures Matches(s, ops[i], tt, from, s.clock.now)
      {
        MonthlyWithinAnnual(s, ops[i], tt);
      }
      FewerLeft(s, ops, from, ops, from', tt, s.clock.now, |ops|, Stuck(s, limits, ops));
      AnnualLeft(s, limits, ops, tt);
    }
  }

  /** After some operations were marked the query finds the others, in order. */
  lemma {:induction false} EligibleAfter(s: Setup, before: seq<Operation>, after: seq<Operation>, tt: nat, from: int,
                                         to: int, n: nat, gone: set<nat>)
    requires n <= |before| && n <= |after|
    requires forall i :: 0 <= i < n ==>
      (Matches(s, after[i], tt, from, to) <==> Matches(s, before[i], tt, from, to) && i !in gone)
    ensures Eligible(s, after, tt, from, to, n) == Rest(Eligible(s, before, tt, from, to, n), gone)
  {
    hide Matches;
    if n == 0 {
      assert Eligible(s, before, tt, from, to, 0) == [] && Eligible(s, after, tt, from, to, 0) == [];
    } else {
      EligibleAfter(s, before, after, tt, from, to, n - 1, gone);
      var front := Eligible(s, before, tt, from, to, n - 1);
      if Matches(s, before[n - 1], tt, from, to) {
        assert (front + [n - 1])[..|front|] == front;
      } else {
        assert front + [] == front;
      }
    }
  }

  lemma FoundByPass(s: Setup, limits: set<LimitKey>, before: seq<Operation>, mid: seq<Operation>, monthly: seq<nat>,
                    annual: seq<nat>, tt: nat, w: Window)
    requires PassedAll(s, limits, before, mid, monthly, annual) && Valid(s, tt) && (w.Monthly? || w.Annual?)
    ensures Selected(s, mid, tt, w) == Rest(Selected(s, before, tt, w), Marked(before, mid))
  {
    var from := WindowStart(s.clock, s.limitTypes[tt].periodStart.value, w);
    forall i: nat | i < |before|
      ensures Matches(s, mid[i], tt, from, s.clock.now)
        <==> Matches(s, before[i], tt, from, s.clock.now) && i !in Marked(before, mid)
    {
    }
    EligibleAfter(s, before, mid, tt, from, s.clock.now, |mid|, Marked(before, mid));
  }

  function Marked(before: seq<Operation>, after: seq<Operation>): set<nat>
    requires |before| == |after|
  {
    set i: nat | i < |before| && after[i] != before[i]
  }

  lemma {:induction false} RestAgrees(ids: seq<nat>, gone: set<nat>, gone': set<nat>)
    requires forall i :: 0 <= i < |ids| ==> (ids[i] in gone <==> ids[i] in gone')
    ensures Rest(ids, gone) == Rest(ids, gone')
  {
    if ids != [] { RestAgrees(ids[..|ids| - 1], gone, gone'); }
  }

  /** A second pass of the same window finds only what is stuck. */
  lemma SecondPassDrains(s: Setup, limits: set<LimitKey>, before: seq<Operation>, mid: seq<Operation>,
                         monthly: seq<nat>, annual: seq<nat>, tt: nat, w: Window)
    requires PassedAll(s, limits, before, mid, monthly, annual) && Valid(s, tt)
    requires (w.Monthly? && tt in monthly) || (w.Annual? && tt in annual)
    requires |Left(Selected(s, before, tt, w), Stuck(s, limits, before))| <= PAGE_SIZE
    ensures Drains(Selected(s, mid, tt, w), Stuck(s, limits, before), PAGE_SIZE)
  {
    var ids, stuck := Selected(s, mid, tt, w), Stuck(s, limits, before);
    FoundByPass(s, limits, before, mid, monthly, annual, tt, w);
    RestKeepsLeft(Selected(s, before, tt, w), Marked(before, mid), stuck);
    forall i | 0 <= i < |ids|
      ensures ids[i] in stuck
    {
      assert Matches(s, mid[ids[i]], tt, WindowStart(s.clock, s.limitTypes[tt].periodStart.value, w), s.clock.now);
    }
    AllStuckDrains(ids, stuck, PAGE_SIZE);
  }

  /** A first pass finds what the initial table says it will. */
  lemma FirstPassFinds(s: Setup, limits: set<LimitKey>, before: seq<Operation>, mid: seq<Operation>, monthly: seq<nat>,
                       annual: seq<nat>, tt: nat, w: Window)
    requires PassedAll(s, limits, before, mid, monthly, annual) && Valid(s, tt) && tt !in annual
    requires (w.Monthly? && tt !in monthly) || (w.Annual? && tt in monthly)
    ensures Selected(s, mid, tt, w)
      == if w.Monthly? then Selected(s, before, tt, w) else FoundAnnually(s, limits, before, tt)
  {
    var ids := Selected(s, before, tt, w);
    FoundByPass(s, limits, before, mid, monthly, annual, tt, w);
    forall i | 0 <= i < |ids|
      ensures ids[i] in Marked(before, mid) <==> w.Annual? && ids[i] in Served(s, limits, before, tt)
    {
      assert Matches(s, before[ids[i]], tt, WindowStart(s.clock, s.limitTypes[tt].periodStart.value, w), s.clock.now);
    }
    if w.Monthly? {
      RestOfNone(ids, Marked(before, mid));
    } else {
      RestAgrees(ids, Marked(before, mid), Served(s, limits, before, tt));
    }
  }

  /** Every pass of the run drains its result list. */
  lemma PassesDrain(s: Setup, limits: set<LimitKey>, limits': set<LimitKey>, before: seq<Operation>,
                    mid: seq<Operation>, types: seq<nat>, monthly: seq<nat>, annual: seq<nat>, tt: nat, w: Window)
    requires Drainable(s, limits, before, types) && tt in types && Valid(s, tt)
    requires PassedAll(s, limits, before, mid, monthly, annual) && GrownFrom(s, limits, limits')
    requires (w.Monthly? && annual == []) || (w.Annual? && tt in monthly)
    ensures Drains(Selected(s, mid, tt, w), Stuck(s, limits', mid), PAGE_SIZE)
  {
    PassedAllProgress(s, limits, before, mid, monthly, annual);
    StuckStable(s, limits, limits', mid);
    StuckFrame(s, limits, before, mid);
    AnnualLeft(s, limits, before, tt);
    if (w.Monthly? && tt in monthly) || (w.Annual? && tt in annual) {
      SecondPassDrains(s, limits, before, mid, monthly, annual, tt, w);
    } else {
      FirstPassFinds(s, limits, before, mid, monthly, annual, tt, w);
    }
  }

  /** Once a run is complete, another at the same moment finds only what is stuck, and ends. */
  lemma SecondRunDrains(s: Setup, limits: set<LimitKey>, limits': set<LimitKey>, before: seq<Operation>,
                        mid: seq<Operation>, types: seq<nat>)
    requires s.clock.Ordered() && Drainable(s, limits, before, types) && GrownFrom(s, limits, limits')
    requires PassedAll(s, limits, before, mid, [], types)
    ensures Drainable(s, limits', mid, types)
  {
    MonthlyThenAnnual(s, limits, before, mid, types);
    PassedAllProgress(s, limits, before, mid, types, types);
    StuckStable(s, limits, limits', mid);
    StuckFrame(s, limits, before, mid);
    forall tt | tt in types && Valid(s, tt)
      ensures Drains(Selected(s, mid, tt, Monthly), Stuck(s, limits', mid), PAGE_SIZE)
      ensures Drains(FoundAnnually(s, limits', mid, tt), Stuck(s, limits', mid), PAGE_SIZE)
    {
      AnnualLeft(s, limits, before, tt);
      SecondPassDrains(s, limits, before, mid, types, types, tt, Monthly);
      SecondPassDrains(s, limits, before, mid, types, types, tt, Annual);
      NothingServedTwice(s, limits, limits', before, mid, types, tt);
      RestOfNone(Selected(s, mid, tt, Annual), Served(s, limits', mid, tt));
    }
  }

  lemma NothingServedTwice(s: Setup, limits: set<LimitKey>, limits': set<LimitKey>, before: seq<Operation>,
                           mid: seq<Operation>, types: seq<nat>, tt: nat)
    requires PassedAll(s, limits, before, mid, types, types) && GrownFrom(s, limits, limits')
    requires tt in types && Valid(s, tt)
    ensures Served(s, limits', mid, tt) == {}
  {
    forall i: nat | i < |mid| && i in Served(s, limits', mid, tt)
      ensures false
    {
      KeyOfStable(s, limits, limits', mid[i]);
    }
  }

  /** Once a run is complete, another at the same moment marks nothing and adds nothing. */
  lemma {:induction false} SecondRunChangesNothing(
      s: Setup, limits: set<LimitKey>, limits': set<LimitKey>, before: seq<Operation>, mid: seq<Operation>,
      after: seq<Operation>, types: seq<nat>, trackers: map<LimitKey, Tracker>, trackers': map<LimitKey, Tracker>)
    requires PassedAll(s, limits, before, mid, [], types) && GrownFrom(s, limits, limits')
    requires PassedAll(s, limits', mid, after, [], types) && Tallied(s, limits', mid, after, trackers, trackers')
    ensures after == mid
    ensures forall key, w :: Used(trackers', key, w) == Used(trackers, key, w)
  {
    forall i: nat | i < |mid|
      ensures after[i] == mid[i]
    {
      KeyOfStable(s, limits, limits', before[i]);
    }
    assert after == mid;
    forall key, w
      ensures Used(trackers', key, w) == Used(trackers, key, w)
    {
      NoGrowth(s, limits', mid, |mid|, key, w);
    }
  }

  // ----- What the tags say -----

  /** The tag that records that a counter counted an operation of an interval limit; the night leaves none. */
  function TagOf(w: Window): Option<Tag> {
    match w
    case Daily => Some(DAILY_INTERVAL_LIMIT_INCLUDED)
    case Monthly => Some(MONTHLY_INTERVAL_LIMIT_INCLUDED)
    case Annual => Some(ANNUAL_INTERVAL_LIMIT_INCLUDED)
    case Nightly => None
  }

  predicate Carries(op: Operation, tag: Tag) {
    op.tags.Some? && tag in op.tags.value
  }

  /** An operation counted for the day is counted for the month, and one counted for the month for the year. */
  lemma {:induction false} TagsNested(s: Setup, limits: set<LimitKey>, before: Operation, after: Operation)
    requires s.clock.Ordered() && MarkedAs(s, limits, before, after)
    ensures Carries(after, DAILY_INTERVAL_LIMIT_INCLUDED) ==> Carries(after, MONTHLY_INTERVAL_LIMIT_INCLUDED)
    ensures Carries(after, MONTHLY_INTERVAL_LIMIT_INCLUDED) ==> Carries(after, ANNUAL_INTERVAL_LIMIT_INCLUDED)
  {
    var key := KeyOf(s, limits, before).value;
    var p := s.limitTypes[before.transactionType].periodStart.value;
    assert WindowStart(s.clock, p, Annual) <= WindowStart(s.clock, p, Monthly) <= WindowStart(s.clock, p, Daily);
  }

  /** The sum of the newly marked operations of a limit that carry a tag. */
  function TaggedSum(s: Setup, limits: set<LimitKey>, before: seq<Operation>, after: seq<Operation>, n: nat,
                     key: LimitKey, tag: Tag): int
    requires n <= |before| == |after|
  {
    if n == 0 then 0
    else
      TaggedSum(s, limits, before, after, n - 1, key, tag)
      + (if before[n - 1].tags.None? && KeyOf(s, limits, before[n - 1]) == Some(key) && Carries(after[n - 1], tag)
         then after[n - 1].value else 0)
  }

  /** A counter of an interval limit grows by the operations that carry its tag. */
  lemma {:induction false} GrowthByTag(s: Setup, limits: set<LimitKey>, before: seq<Operation>, after: seq<Operation>,
                                       n: nat, key: LimitKey, w: Window)
    requires Progress(s, limits, before, after) && n <= |before| && !w.Nightly?
    requires forall tt :: tt in s.limitTypes && s.limitTypes[tt].id == key.limitType ==>
      s.limitTypes[tt].periodStart == Some(INTERVAL)
    ensures Growth(s, limits, before, after, n, key, w) == TaggedSum(s, limits, before, after, n, key, TagOf(w).value)
  {
    if n > 0 {
      GrowthByTag(s, limits, before, after, n - 1, key, w);
      var op := before[n - 1];
      if op.tags.None? && after[n - 1] != op && KeyOf(s, limits, op) == Some(key) {
        assert s.limitTypes[op.transactionType].id == key.limitType;
        assert Carries(after[n - 1], TagOf(w).value) <==> InWindow(s, op, key, w);
      }
    }
  }

  /** Without negative values no counter of a limit grows more than the counter of a longer period. */
  lemma {:induction false} GrowthOrdered(s: Setup, limits: set<LimitKey>, before: seq<Operation>, after: seq<Operation>,
                                         n: nat, key: LimitKey)
    requires s.clock.Ordered() && n <= |before| == |after|
    requires forall i :: 0 <= i < |before| ==> before[i].value >= 0
    ensures 0 <= Growth(s, limits, before, after, n, key, Daily)
    ensures Growth(s, limits, before, after, n, key, Daily) <= Growth(s, limits, before, after, n, key, Monthly)
    ensures Growth(s, limits, before, after, n, key, Monthly) <= Growth(s, limits, before, after, n, key, Annual)
  {
    if n > 0 { GrowthOrdered(s, limits, before, after, n - 1, key); }
  }

  // ----- What is selected and counted, and for whom -----

  /** The day of a moment, in the script's time zone. */
  function DayOf(t: int): int {
    (t - 10800000) / 86400000
  }

  lemma DayBounds(t: int)
    ensures StartOfDay(t) == 86400000 * DayOf(t) + 10800000
    ensures EndOfDay(t) == StartOfDay(t) + 86399999
  {
  }

  lemma StartedSince(t: int, from: int)
    ensures StartOfDay(from) <= t <==> DayOf(from) <= DayOf(t)
    ensures t <= EndOfDay(from) <==> DayOf(t) <= DayOf(from)
  {
    DayBounds(t);
    DayBounds(from);
  }

  /**
   * What a query selects: open operations of the type, in the currency of its limit type, never marked, of the days
   * from one moment to another.
   */
  lemma MatchesExactly(s: Setup, op: Operation, tt: nat, from: int, to: int)
    ensures Matches(s, op, tt, from, to) <==>
      && tt in s.limitTypes && op.transactionType == tt && op.currency == s.limitTypes[tt].currency
      && op.open && op.tags == None && op.tracker == None
      && DayOf(from) <= DayOf(op.createdAt) <= DayOf(to)
  {
    StartedSince(op.createdAt, from);
    StartedSince(op.createdAt, to);
  }

  /** An operation counts for its party, if that has a limit or can be given one. */
  lemma KeyIsTheParty(s: Setup, limits: set<LimitKey>, op: Operation, key: LimitKey)
    requires op.transactionType in s.limitTypes
    ensures KeyOf(s, limits, op) == Some(key) <==>
      var lt := s.limitTypes[op.transactionType];
      && key.limitType == lt.id && key.user != 0 && IsParty(lt, op, key.user)
      && (key in limits || lt.id in s.globalLimits)
  {
  }

  /** What a newly marked operation adds to each counter of the limit of its party. */
  lemma ShareExactly(s: Setup, limits: set<LimitKey>, before: Operation, after: Operation, key: LimitKey)
    requires MarkedAs(s, limits, before, after) && KeyOf(s, limits, before) == Some(key)
    ensures var c, date := s.clock, s.limitTypes[before.transactionType].periodStart == Some(DATE);
      && Share(s, limits, before, after, key, Daily)
         == (if before.createdAt >= (if date then c.startOfDay else c.dayAgo) then before.value else 0)
      && Share(s, limits, before, after, key, Monthly)
         == (if before.createdAt >= (if date then c.startOfMonth else c.monthAgo) then before.value else 0)
      && Share(s, limits, before, after, key, Annual)
         == (if before.createdAt >= (if date then c.startOfYear else c.yearAgo) then before.value else 0)
      && Share(s, limits, before, after, key, Nightly) == (if key in s.nights then before.value else 0)
  {
  }

  /** Is the user of a limit, for that limit's type, the party of an operation that was newly marked? */
  ghost predicate HasPart(s: Setup, before: seq<Operation>, after: seq<Operation>, key: LimitKey) {
    exists i :: 0 <= i < |before| && i < |after| && after[i] != before[i]
      && before[i].transactionType in s.limitTypes
      && s.limitTypes[before[i].transactionType].id == key.limitType
      && IsParty(s.limitTypes[before[i].transactionType], before[i], key.user)
  }

  lemma {:induction false} NoPartNoGrowth(s: Setup, limits: set<LimitKey>, before: seq<Operation>,
                                          after: seq<Operation>, n: nat, key: LimitKey, w: Window)
    requires n <= |before| == |after| && !HasPart(s, before, after, key)
    ensures Growth(s, limits, before, after, n, key, w) == 0
  {
    if n > 0 {
      NoPartNoGrowth(s, limits, before, after, n - 1, key, w);
      if after[n - 1] != before[n - 1] && before[n - 1].transactionType in s.limitTypes {
        KeyIsTheParty(s, limits, before[n - 1], key);
      }
    }
  }

  /** The counters of a user who is no such party of any newly marked operation stay as they are. */
  lemma OutsidersKeepTheirCounters(s: Setup, limits: set<LimitKey>, before: seq<Operation>, after: seq<Operation>,
                                   trackers: map<LimitKey, Tracker>, trackers': map<LimitKey, Tracker>, key: LimitKey,
                                   w: Window)
    requires |before| == |after| && Tallied(s, limits, before, after, trackers, trackers')
    requires !HasPart(s, before, after, key)
    ensures Used(trackers', key, w) == Used(trackers, key, w)
  {
    NoPartNoGrowth(s, limits, before, after, |before|, key, w);
  }

  // ----- The script -----

  class TrackerScript {
    const setup: Setup
    var operations: seq<Operation>  // by creation date, the order in which pages are fetched
    var userLimits: set<LimitKey>
    var trackers: map<LimitKey, Tracker>
    var nextId: nat                 // above every tracker id given out so far

    constructor (setup: Setup, operations: seq<Operation>, userLimits: set<LimitKey>, trackers: map<LimitKey, Tracker>,
                 nextId: nat)
      ensures this.setup == setup && this.operations == operations && this.userLimits == userLimits
      ensures this.trackers == trackers && this.nextId == nextId
    {
      this.setup, this.operations, this.userLimits, this.trackers, this.nextId :=
        setup, operations, userLimits, trackers, nextId;
    }

    /** The limit of an operation, created from the global limit when the user has none yet. */
    method GetUserLimit(op: Operation) returns (key: Option<LimitKey>)
      requires op.transactionType in setup.limitTypes
      modifies this`userLimits
      ensures key == KeyOf(setup, old(userLimits), op)
      ensures var lt := setup.limitTypes[op.transactionType];
        && (key.Some? ==> key.value.limitType == lt.id && key.value.user != 0)
        && (key.Some? && lt.check.OWNER? ==> op.owner == Some(key.value.user))
        && (key.Some? && lt.check.BENEFICIARY? ==> op.beneficiary == Some(key.value.user))
        && (key.Some? && lt.check.BOTH? ==>
              if op.owner.Some? then op.owner == Some(key.value.user) else op.beneficiary == Some(key.value.user))
      ensures key.None? <==>
        forall user :: user != 0 && IsParty(setup.limitTypes[op.transactionType], op, user) ==>
          && LimitKey(user, setup.limitTypes[op.transactionType].id) !in old(userLimits)
          && setup.limitTypes[op.transactionType].id !in setup.globalLimits
      ensures userLimits == old(userLimits) + (if key.Some? then {key.value} else {})
      ensures GrownFrom(setup, old(userLimits), userLimits)
    {
      var lt := setup.limitTypes[op.transactionType];
      var user := None;
      if lt.check.BOTH? {
        user := if op.owner.Some? then op.owner else op.beneficiary;
      } else {
        user := if lt.check.OWNER? then op.owner else op.beneficiary;
      }
      if user.None? || user.value == 0 { return None; }
      var k := LimitKey(user.value, lt.id);
      if k !in userLimits {
        if lt.id !in setup.globalLimits { return None; }
        userLimits := userLimits + {k};
      }
      assert userLimits == old(userLimits) + {k};
      return Some(k);
    }

    /**
     * Counts one operation in the given tracker and marks it. A tracker that counted nothing is not saved, but its
     * id is written to the operation all the same.
     */
    method UpdateUserLimitTracker(i: nat, key: LimitKey, found: Tracker)
      requires i < |operations| && Valid(setup, operations[i].transactionType)
      requires if key in trackers then found == trackers[key] else found == Tracker(found.id, 0, 0, 0, 0)
      modifies this`operations, this`trackers
      ensures operations == old(operations)[i :=
        old(operations)[i].(tags := Some(TagsFor(setup, old(operations)[i], key)), tracker := Some(found.id))]
      ensures forall w ::
        Used(trackers, key, w) == Used(old(trackers), key, w) + Gain(setup, old(operations)[i], key, w)
      ensures forall k :: k != key ==> (k in trackers <==> k in old(trackers))
      ensures forall k :: k != key && k in trackers ==> trackers[k] == old(trackers)[k]
      ensures key in trackers <==> key in old(trackers) || Counts(setup, old(operations)[i], key)
      ensures key in trackers ==> trackers[key].id == found.id
      ensures var op, c := old(operations)[i], setup.clock;
        setup.limitTypes[op.transactionType].periodStart == Some(DATE) ==>
          operations[i].tags == Some(
            if op.createdAt >= c.startOfDay || op.createdAt >= c.startOfMonth || op.createdAt >= c.startOfYear
               || key in setup.nights
            then [DATE_LIMIT_INCLUDED] else [])
    {
      var op, tracker, update, tags := operations[i], found, false, [];
      var p := setup.limitTypes[op.transactionType].periodStart.value;
      if p.DATE? { tracker, update := CountByDate(op, key, tracker); }
      if update { tags := tags + [DATE_LIMIT_INCLUDED]; }
      if p.INTERVAL? { tracker, tags, update := CountByInterval(op, key, tracker); }
      assert tags == TagsFor(setup, op, key);
      if update { trackers := trackers[key := tracker]; }
      operations := operations[i := op.(tags := Some(tags), tracker := Some(found.id))];
    }

    /** Calendar day, month and year, and the night. */
    method CountByDate(op: Operation, key: LimitKey, found: Tracker) returns (tracker: Tracker, update: bool)
      requires Valid(setup, op.transactionType) && setup.limitTypes[op.transactionType].periodStart.value.DATE?
      ensures tracker.id == found.id && update == Counts(setup, op, key)
      ensures forall w :: Counter(tracker, w) == Counter(found, w) + Gain(setup, op, key, w)
      ensures tracker.daily == found.daily + (if op.createdAt >= setup.clock.startOfDay then op.value else 0)
      ensures tracker.monthly == found.monthly + (if op.createdAt >= setup.clock.startOfMonth then op.value else 0)
      ensures tracker.annual == found.annual + (if op.createdAt >= setup.clock.startOfYear then op.value else 0)
      ensures tracker.nightly == found.nightly + (if key in setup.nights then op.value else 0)
    {
      tracker, update := found, false;
      if op.createdAt >= setup.clock.startOfDay {
        tracker, update := tracker.(daily := tracker.daily + op.value), true;
      }
      if op.createdAt >= setup.clock.startOfMonth {
        tracker, update := tracker.(monthly := tracker.monthly + op.value), true;
      }
      if op.createdAt >= setup.clock.startOfYear {
        tracker, update := tracker.(annual := tracker.annual + op.value), true;
      }
      if key in setup.nights { tracker, update := tracker.(nightly := tracker.nightly + op.value), true; }
    }

    /** The last day, month and year up to now, and the night; every period counted leaves its tag. */
    method CountByInterval(op: Operation, key: LimitKey, found: Tracker)
      returns (tracker: Tracker, tags: seq<Tag>, update: bool)
      requires Valid(setup, op.transactionType) && setup.limitTypes[op.transactionType].periodStart.value.INTERVAL?
      ensures tracker.id == found.id && update == Counts(setup, op, key) && tags == TagsFor(setup, op, key)
      ensures forall w :: Counter(tracker, w) == Counter(found, w) + Gain(setup, op, key, w)
      ensures tracker.daily == found.daily + (if op.createdAt >= setup.clock.dayAgo then op.value else 0)
      ensures tracker.monthly == found.monthly + (if op.createdAt >= setup.clock.monthAgo then op.value else 0)
      ensures tracker.annual == found.annual + (if op.createdAt >= setup.clock.yearAgo then op.value else 0)
      ensures tracker.nightly == found.nightly + (if key in setup.nights then op.value else 0)
      ensures DAILY_INTERVAL_LIMIT_INCLUDED in tags <==> op.createdAt >= setup.clock.dayAgo
      ensures MONTHLY_INTERVAL_LIMIT_INCLUDED in tags <==> op.createdAt >= setup.clock.monthAgo
      ensures ANNUAL_INTERVAL_LIMIT_INCLUDED in tags <==> op.createdAt >= setup.clock.yearAgo
      ensures DATE_LIMIT_INCLUDED !in tags && |tags| <= 3
    {
      tracker, tags, update := found, [], false;
      if op.createdAt >= setup.clock.dayAgo {
        tracker, update := tracker.(daily := tracker.daily + op.value), true;
        tags := tags + [DAILY_INTERVAL_LIMIT_INCLUDED];
      }
      if op.createdAt >= setup.clock.monthAgo {
        tracker, update := tracker.(monthly := tracker.monthly + op.value), true;
        tags := tags + [MONTHLY_INTERVAL_LIMIT_INCLUDED];
      }
      if op.createdAt >= setup.clock.yearAgo {
        tracker, update := tracker.(annual := tracker.annual + op.value), true;
        tags := tags + [ANNUAL_INTERVAL_LIMIT_INCLUDED];
      }
      if key in setup.nights { tracker, update := tracker.(nightly := tracker.nightly + op.value), true; }
      assert tags == TagsFor(setup, op, key);
    }

    /** The loop body for one fetched operation. */
    method ProcessOperation(i: nat)
      requires i < |operations| && Valid(setup, operations[i].transactionType)
      requires operations[i].tags.None? && operations[i].tracker.None?
      modifies this
      ensures GrownFrom(setup, old(userLimits), userLimits)
      ensures KeyOf(setup, old(userLimits), old(operations)[i]).None? ==>
        operations == old(operations) && trackers == old(trackers)
      ensures KeyOf(setup, old(userLimits), old(operations)[i]).Some? ==>
        && |operations| == |old(operations)|
        && MarkedAs(setup, old(userLimits), old(operations)[i], operations[i])
        && operations == old(operations)[i := operations[i]]
        && SharesAdded(setup, old(userLimits), old(operations)[i], operations[i], old(trackers), trackers)
    {
      var key := GetUserLimit(operations[i]);
      if key.None? { return; }
      var tracker;
      if key.value in trackers {
        tracker := trackers[key.value];
      } else {
        tracker := Tracker(nextId, 0, 0, 0, 0);
        nextId := nextId + 1;
      }
      UpdateUserLimitTracker(i, key.value, tracker);
    }

    /** The inner loop: every operation of the fetched page in turn. */
    method ProcessPage(found: seq<nat>, tt: nat, from: int, to: int)
      requires Valid(setup, tt) && found == Eligible(setup, operations, tt, from, to, |operations|)
      modifies this
      ensures GrownFrom(setup, old(userLimits), userLimits)
      ensures Worked(setup, old(userLimits), old(operations), operations, old(trackers), trackers, tt, from, to)
      ensures Eligible(setup, operations, tt, from, to, |operations|)
        == AfterFetch(found, Stuck(setup, old(userLimits), old(operations)), PAGE_SIZE)
    {
      var page := Page(found, PAGE_SIZE);
      ghost var limits, before, tallies := userLimits, operations, trackers;
      ghost var stuck := Stuck(setup, limits, before);
      NothingWorked(setup, limits, before, tallies, tt, from, to);
      assert Reached(setup, operations, found, 0, stuck, tt, from, to);
      for k := 0 to |page|
        invariant GrownFrom(setup, limits, userLimits)
        invariant Worked(setup, limits, before, operations, tallies, trackers, tt, from, to)
        invariant Reached(setup, operations, found, k, stuck, tt, from, to)
      {
        ghost var mid, tb, created := operations, trackers, userLimits;
        assert page[k] == found[k];
        ReachedNext(setup, operations, found, k, stuck, tt, from, to);
        KeyOfStable(setup, limits, userLimits, operations[page[k]]);
        ProcessOperation(page[k]);
        GrownTransitive(setup, limits, created, userLimits);
        assert page[k] in stuck <==> KeyOf(setup, limits, mid[page[k]]).None?;
        if page[k] !in stuck {
          WorkedOneMore(setup, limits, created, before, mid, operations, page[k], tallies, tb, trackers, tt, from, to);
        }
        ReachedStep(setup, mid, operations, found, k, stuck, tt, from, to);
      }
      assert found[..|page|] == page;
    }

    /**
     * Fetches page 1 until nothing, or no more than one page, was found. Afterwards every operation the query matched
     * is marked, unless it has no limit, and every counter has grown by the values counted.
     */
    method UpdateByTypeAndDateRange(tt: nat, from: int, to: int) returns (fetches: nat)
      requires Valid(setup, tt)
      requires Drains(Eligible(setup, operations, tt, from, to, |operations|),
                      Stuck(setup, userLimits, operations), PAGE_SIZE)
      modifies this
      ensures GrownFrom(setup, old(userLimits), userLimits)
      ensures Passed(setup, old(userLimits), old(operations), operations, tt, from, to)
      ensures Tallied(setup, old(userLimits), old(operations), operations, old(trackers), trackers)
      ensures fetches == old(Fetches(Eligible(setup, operations, tt, from, to, |operations|),
                                     Stuck(setup, userLimits, operations), PAGE_SIZE))
    {
      ghost var limits, before, tallies := userLimits, operations, trackers;
      ghost var stuck := Stuck(setup, limits, before);
      ghost var all := Fetches(Eligible(setup, before, tt, from, to, |before|), stuck, PAGE_SIZE);
      NothingWorked(setup, limits, before, tallies, tt, from, to);
      fetches := 0;
      var goOn := true;
      while goOn
        invariant GrownFrom(setup, limits, userLimits)
        invariant Worked(setup, limits, before, operations, tallies, trackers, tt, from, to)
        invariant goOn ==> Drains(Eligible(setup, operations, tt, from, to, |operations|), stuck, PAGE_SIZE)
        invariant goOn ==>
          fetches + Fetches(Eligible(setup, operations, tt, from, to, |operations|), stuck, PAGE_SIZE) == all
        invariant !goOn ==>
          fetches == all && forall i :: i in Eligible(setup, operations, tt, from, to, |operations|) ==> i in stuck
        decreases if goOn then 1 + |Eligible(setup, operations, tt, from, to, |operations|)| else 0
      {
        ghost var mid, tb, created := operations, trackers, userLimits;
        var found := Eligible(setup, operations, tt, from, to, |operations|);
        var pageTotal := if |found| == 0 then 0 else CeilDiv(|found|, PAGE_SIZE);
        fetches := fetches + 1;
        if |found| == 0 { goOn := false; }
        if goOn {
          StuckStable(setup, limits, created, mid);
          StuckFrame(setup, limits, before, mid);
          ProcessPage(found, tt, from, to);
          WorkedTransitive(setup, limits, created, before, mid, operations, tallies, tb, trackers, tt, from, to);
          GrownTransitive(setup, limits, created, userLimits);
          FetchLeaves(found, stuck);
          CeilingBeyondOne(|found|, PAGE_SIZE);
          goOn := 1 < pageTotal;
        }
      }
      WorkedThrough(setup, limits, before, operations, tallies, trackers, tt, from, to);
    }

    /** One pass of the run for one type, with the ends of its range. */
    method Pass(tt: nat, w: Window, ghost limits: set<LimitKey>, ghost before: seq<Operation>,
                ghost tallies: map<LimitKey, Tracker>, ghost types: seq<nat>, ghost monthly: seq<nat>,
                ghost annual: seq<nat>)
      requires Drainable(setup, limits, before, types) && tt in types
      requires (w.Monthly? && annual == []) || (w.Annual? && tt in monthly)
      requires GrownFrom(setup, limits, userLimits)
      requires PassedAll(setup, limits, before, operations, monthly, annual)
      requires Tallied(setup, limits, before, operations, tallies, trackers)
      modifies this
      ensures GrownFrom(setup, limits, userLimits)
      ensures w.Monthly? ==> PassedAll(setup, limits, before, operations, monthly + [tt], annual)
      ensures w.Annual? ==> PassedAll(setup, limits, before, operations, monthly, annual + [tt])
      ensures |before| == |operations| && Tallied(setup, limits, before, operations, tallies, trackers)
    {
      if tt !in setup.limitTypes || setup.limitTypes[tt].periodStart.None? {
        PassedInvalid(setup, limits, before, operations, monthly, annual,
                      if w.Monthly? then monthly + [tt] else monthly, if w.Annual? then annual + [tt] else annual);
        return;
      }
      ghost var mid, tb, created := operations, trackers, userLimits;
      PassedAllProgress(setup, limits, before, mid, monthly, annual);
      PassesDrain(setup, limits, created, before, mid, types, monthly, annual, tt, w);
      var from := WindowStart(setup.clock, setup.limitTypes[tt].periodStart.value, w);
      var _ := UpdateByTypeAndDateRange(tt, from, setup.clock.now);
      PassedOneMore(setup, limits, created, before, mid, operations, monthly, annual, tt, w);
      PassedProgress(setup, created, mid, operations, tt, from, setup.clock.now);
      ProgressStable(setup, limits, created, mid, operations);
      TalliedStable(setup, limits, created, mid, operations, tb, trackers);
      TalliedTransitive(setup, limits, before, mid, operations, tallies, tb, trackers);
      GrownTransitive(setup, limits, created, userLimits);
    }

    /**
     * The whole script: a monthly pass for each transaction type, then an annual pass for each. It comes to marking the
     * operations of the annual windows that have a limit, and every counter grows by what was counted.
     */
    method Execute(types: seq<nat>)
      requires setup.clock.Ordered() && Drainable(setup, userLimits, operations, types)
      modifies this
      ensures GrownFrom(setup, old(userLimits), userLimits)
      ensures PassedAll(setup, old(userLimits), old(operations), operations, [], types)
      ensures |operations| == |old(operations)|
      ensures Tallied(setup, old(userLimits), old(operations), operations, old(trackers), trackers)
      ensures forall key, w :: !HasPart(setup, old(operations), operations, key) ==>
        Used(trackers, key, w) == Used(old(trackers), key, w)
    {
      ghost var limits, before, tallies := userLimits, operations, trackers;
      NothingWorked(setup, limits, before, tallies, 0, 0, 0);
      for k := 0 to |types|
        invariant GrownFrom(setup, limits, userLimits)
        invariant PassedAll(setup, limits, before, operations, types[..k], [])
        invariant Tallied(setup, limits, before, operations, tallies, trackers)
      {
        Pass(types[k], Monthly, limits, before, tallies, types, types[..k], []);
        assert types[..k + 1] == types[..k] + [types[k]];
      }
      assert types[..|types|] == types;
      for k := 0 to |types|
        invariant GrownFrom(setup, limits, userLimits)
        invariant PassedAll(setup, limits, before, operations, types, types[..k])
        invariant Tallied(setup, limits, before, operations, tallies, trackers)
      {
        Pass(types[k], Annual, limits, before, tallies, types, types, types[..k]);
        assert types[..k + 1] == types[..k] + [types[k]];
      }
      MonthlyThenAnnual(setup, limits, before, operations, types);
      forall key, w | !HasPart(setup, before, operations, key)
        ensures Used(trackers, key, w) == Used(tallies, key, w)
      {
        OutsidersKeepTheirCounters(setup, limits, before, operations, tallies, trackers, key, w);
      }
    }

    /** Running the script twice at one moment is running it once. */
    method ExecuteTwice(types: seq<nat>)
      requires setup.clock.Ordered() && Drainable(setup, userLimits, operations, types)
      modifies this
      ensures PassedAll(setup, old(userLimits), old(operations), operations, [], types)
      ensures |operations| == |old(operations)|
      ensures Tallied(setup, old(userLimits), old(operations), operations, old(trackers), trackers)
    {
      ghost var limits, before := userLimits, operations;
      Execute(types);
      ghost var limits', mid, tallies := userLimits, operations, trackers;
      SecondRunDrains(setup, limits, limits', before, mid, types);
      Execute(types);
      SecondRunChangesNothing(setup, limits, limits', before, mid, operations, types, tallies, trackers);
    }
  }
}
