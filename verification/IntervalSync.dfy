/**
 * The job that takes expired operations out of the counters of interval limits. It turns pages forward over a result
 * list that shrinks, so after each page it passes over as many operations as the page lost.
 */
module IntervalSync {
  import opened Division
  import opened Windows
  import opened Wrappers

  const PAGE_SIZE := 100

  /** An operation that carries the tag of the counter, and the tracker it says it was counted in. */
  datatype Entry = Entry(id: nat, tracker: Option<nat>, value: int)

  // ----- One run, page by page -----

  /** Is the tracker of an operation among those stored? */
  predicate Found(op: Entry, trackers: set<nat>) {
    op.tracker.Some? && op.tracker.value in trackers
  }

  /** Operations whose tracker is not found keep their tag. */
  function Kept(ops: seq<Entry>, trackers: set<nat>): seq<Entry> {
    if ops == [] then []
    else Kept(ops[..|ops| - 1], trackers) + (if Found(ops[|ops| - 1], trackers) then [] else [ops[|ops| - 1]])
  }

  lemma KeptNext(ops: seq<Entry>, i: nat, trackers: set<nat>)
    requires i < |ops|
    ensures Kept(ops[..i + 1], trackers) == Kept(ops[..i], trackers) + Kept([ops[i]], trackers)
  {
    assert ops[..i + 1][..i] == ops[..i];
    assert [ops[i]][..0] == [];
    assert Kept([ops[i]][..0], trackers) == [];
  }

  /** The list once the page that begins at `offset` is handled. */
  function AfterPage(expired: seq<Entry>, offset: nat, trackers: set<nat>): (r: seq<Entry>)
    ensures |r| <= |expired|
  {
    var n, m := Min(offset, |expired|), Min(offset + PAGE_SIZE, |expired|);
    KeptIsShorter(expired[n..m], trackers);
    expired[..n] + Kept(expired[n..m], trackers) + expired[m..]
  }

  lemma {:induction false} KeptIsShorter(ops: seq<Entry>, trackers: set<nat>)
    ensures |Kept(ops, trackers)| <= |ops|
  {
    if ops != [] { KeptIsShorter(ops[..|ops| - 1], trackers); }
  }

  predicate HasNextPage(expired: seq<Entry>, page: nat) {
    page < CeilDiv(|expired|, PAGE_SIZE)
  }

  /** The list when the job stops, and the operations it fetched on the way. */
  function Sweep(expired: seq<Entry>, page: nat, trackers: set<nat>): (seq<Entry>, seq<Entry>)
    requires page >= 1
    decreases |expired| - Offset(page - 1, PAGE_SIZE)
  {
    var offset := Offset(page - 1, PAGE_SIZE);
    var data, left := Window(expired, offset, PAGE_SIZE), AfterPage(expired, offset, trackers);
    if data == [] || !HasNextPage(expired, page) then (left, data)
    else
      MoreThan(|expired|, page, PAGE_SIZE);
      var more := Sweep(left, page + 1, trackers);
      (more.0, data + more.1)
  }

  // ----- The counters -----

  function Max(a: int, b: int): int {
    if a >= b then a else b
  }

  /** Taking an operation out of its counter, which stays at zero or above. */
  function TakenOut(counters: map<nat, int>, op: Entry): map<nat, int> {
    if Found(op, counters.Keys)
    then counters[op.tracker.value := Max(0, counters[op.tracker.value] - op.value)] else counters
  }

  function AllTakenOut(counters: map<nat, int>, ops: seq<Entry>): (r: map<nat, int>)
    ensures r.Keys == counters.Keys
  {
    if ops == [] then counters else TakenOut(AllTakenOut(counters, ops[..|ops| - 1]), ops[|ops| - 1])
  }

  lemma {:induction false} AllTakenOutConcat(counters: map<nat, int>, a: seq<Entry>, b: seq<Entry>)
    ensures AllTakenOut(counters, a + b) == AllTakenOut(AllTakenOut(counters, a), b)
  {
    if b == [] {
      assert a + b == a;
    } else {
      var n := |b| - 1;
      assert (a + b)[..|a + b| - 1] == a + b[..n];
      AllTakenOutConcat(counters, a, b[..n]);
    }
  }

  /** What the operations of a list add up to for a tracker. */
  function SumFor(s: seq<Entry>, tracker: nat): int {
    if s == [] then 0
    else SumFor(s[..|s| - 1], tracker) + (if s[|s| - 1].tracker == Some(tracker) then s[|s| - 1].value else 0)
  }

  ghost predicate NoNegative(s: seq<Entry>) {
    forall i :: 0 <= i < |s| ==> s[i].value >= 0
  }

  lemma {:induction false} SumForConcat(a: seq<Entry>, b: seq<Entry>, tracker: nat)
    ensures SumFor(a + b, tracker) == SumFor(a, tracker) + SumFor(b, tracker)
  {
    if b == [] {
      assert a + b == a;
    } else {
      var n := |b| - 1;
      assert (a + b)[..|a + b| - 1] == a + b[..n];
      SumForConcat(a, b[..n], tracker);
    }
  }

  lemma {:induction false} SumIsNotNegative(s: seq<Entry>, tracker: nat)
    requires NoNegative(s)
    ensures SumFor(s, tracker) >= 0
  {
    if s != [] { SumIsNotNegative(s[..|s| - 1], tracker); }
  }

  lemma {:induction false} KeptAddsNothing(ops: seq<Entry>, trackers: set<nat>, tracker: nat)
    requires tracker in trackers
    ensures SumFor(Kept(ops, trackers), tracker) == 0
  {
    if ops != [] {
      var n := |ops| - 1;
      KeptAddsNothing(ops[..n], trackers, tracker);
      if !Found(ops[n], trackers) {
        assert (Kept(ops[..n], trackers) + [ops[n]])[..|Kept(ops[..n], trackers)|] == Kept(ops[..n], trackers);
      } else {
        assert Kept(ops[..n], trackers) + [] == Kept(ops[..n], trackers);
      }
    }
  }

  /** Clamping one by one is clamping once. */
  lemma {:induction false} ClampedOnce(counters: map<nat, int>, ops: seq<Entry>, tracker: nat)
    requires tracker in counters && counters[tracker] >= 0 && NoNegative(ops)
    ensures AllTakenOut(counters, ops)[tracker] == Max(0, counters[tracker] - SumFor(ops, tracker))
  {
    if ops == [] {
    } else {
      var n := |ops| - 1;
      ClampedOnce(counters, ops[..n], tracker);
      SumIsNotNegative(ops[..n], tracker);
    }
  }

  /** The clamp loses nothing exactly if the counter held at least what is taken out of it. */
  lemma ClampLosesNothingExactly(counters: map<nat, int>, ops: seq<Entry>, tracker: nat)
    requires tracker in counters && counters[tracker] >= 0 && NoNegative(ops)
    ensures AllTakenOut(counters, ops)[tracker] == counters[tracker] - SumFor(ops, tracker) <==>
      SumFor(ops, tracker) <= counters[tracker]
  {
    ClampedOnce(counters, ops, tracker);
  }

  lemma PageSums(expired: seq<Entry>, offset: nat, trackers: set<nat>, tracker: nat)
    requires tracker in trackers
    ensures SumFor(AfterPage(expired, offset, trackers), tracker)
      == SumFor(expired, tracker) - SumFor(Window(expired, offset, PAGE_SIZE), tracker)
  {
    var n, m := Min(offset, |expired|), Min(offset + PAGE_SIZE, |expired|);
    var a, w, b := expired[..n], expired[n..m], expired[m..];
    KeptAddsNothing(w, trackers, tracker);
    SumForConcat(a, Kept(w, trackers), tracker);
    SumForConcat(a + Kept(w, trackers), b, tracker);
    SumForConcat(a, w, tracker);
    SumForConcat(a + w, b, tracker);
    assert a + w + b == expired && Window(expired, offset, PAGE_SIZE) == w;
  }

  /** What the list loses of a stored tracker is what was fetched for it. */
  lemma {:induction false} SweepSums(expired: seq<Entry>, page: nat, trackers: set<nat>, tracker: nat)
    requires page >= 1 && tracker in trackers
    ensures var (left, fetched) := Sweep(expired, page, trackers);
      SumFor(left, tracker) == SumFor(expired, tracker) - SumFor(fetched, tracker)
    decreases |expired| - Offset(page - 1, PAGE_SIZE)
  {
    var offset := Offset(page - 1, PAGE_SIZE);
    var data, left := Window(expired, offset, PAGE_SIZE), AfterPage(expired, offset, trackers);
    PageSums(expired, offset, trackers, tracker);
    if data != [] && HasNextPage(expired, page) {
      MoreThan(|expired|, page, PAGE_SIZE);
      SweepSums(left, page + 1, trackers, tracker);
      SumForConcat(data, Sweep(left, page + 1, trackers).1, tracker);
    }
  }

  /** Each stored counter is the sum of the operations that carry its tag. */
  ghost predicate Balanced(counters: map<nat, int>, tagged: seq<Entry>) {
    forall t :: t in counters ==> counters[t] == SumFor(tagged, t)
  }

  lemma {:induction false} KeptFrom(ops: seq<Entry>, trackers: set<nat>)
    requires NoNegative(ops)
    ensures NoNegative(Kept(ops, trackers))
  {
    if ops != [] { KeptFrom(ops[..|ops| - 1], trackers); }
  }

  lemma PageNoNegative(expired: seq<Entry>, offset: nat, trackers: set<nat>)
    requires NoNegative(expired)
    ensures NoNegative(Window(expired, offset, PAGE_SIZE)) && NoNegative(AfterPage(expired, offset, trackers))
  {
    var n, m := Min(offset, |expired|), Min(offset + PAGE_SIZE, |expired|);
    KeptFrom(expired[n..m], trackers);
  }

  lemma {:induction false} SweepNoNegative(expired: seq<Entry>, page: nat, trackers: set<nat>)
    requires page >= 1 && NoNegative(expired)
    ensures NoNegative(Sweep(expired, page, trackers).0) && NoNegative(Sweep(expired, page, trackers).1)
    decreases |expired| - Offset(page - 1, PAGE_SIZE)
  {
    hide Sweep, Window, AfterPage, Offset, HasNextPage;
    var offset := Offset(page - 1, PAGE_SIZE);
    var later := SweepStep(expired, page, trackers);
    PageNoNegative(expired, offset, trackers);
    if Window(expired, offset, PAGE_SIZE) != [] && HasNextPage(expired, page) {
      SweepNoNegative(AfterPage(expired, offset, trackers), page + 1, trackers);
    }
  }

  /**
   * One run keeps the counters the sums of what is tagged, trackers missing or not: so with such counters the clamp at
   * zero never loses anything. `current` are the tagged operations that did not expire.
   */
  lemma RunKeepsBalance(counters: map<nat, int>, expired: seq<Entry>, current: seq<Entry>)
    requires Balanced(counters, expired + current) && NoNegative(expired) && NoNegative(current)
    ensures var (left, fetched) := Sweep(expired, 1, counters.Keys);
      Balanced(AllTakenOut(counters, fetched), left + current)
  {
    var (left, fetched) := Sweep(expired, 1, counters.Keys);
    SweepNoNegative(expired, 1, counters.Keys);
    forall t | t in counters
      ensures AllTakenOut(counters, fetched)[t] == SumFor(left + current, t)
    {
      SweepSums(expired, 1, counters.Keys, t);
      SumForConcat(expired, current, t);
      SumForConcat(left, current, t);
      SumIsNotNegative(left, t);
      SumIsNotNegative(fetched, t);
      SumIsNotNegative(current, t);
      ClampedOnce(counters, fetched, t);
    }
  }

  // ----- What a run leaves -----

  predicate AllFound(ops: seq<Entry>, trackers: set<nat>) {
    forall i :: 0 <= i < |ops| ==> Found(ops[i], trackers)
  }

  /** One step of the sweep, and where the page lies in the list. */
  lemma PageStep(expired: seq<Entry>, page: nat, trackers: set<nat>)
    requires page >= 1
    ensures var offset := Offset(page - 1, PAGE_SIZE);
      var data, left := Window(expired, offset, PAGE_SIZE), AfterPage(expired, offset, trackers);
      && (data == [] ==> Sweep(expired, page, trackers) == (expired, []))
      && (data != [] ==>
            && offset + |data| <= |expired| && expired == expired[..offset] + data + expired[offset + |data|..]
            && left == expired[..offset] + Kept(data, trackers) + expired[offset + |data|..]
            && (HasNextPage(expired, page) ==>
                  && Sweep(expired, page, trackers)
                     == (Sweep(left, page + 1, trackers).0, data + Sweep(left, page + 1, trackers).1)
                  && |left| - Offset(page, PAGE_SIZE) < |expired| - offset)
            && (!HasNextPage(expired, page) ==> Sweep(expired, page, trackers) == (left, data)))
  {
    MoreThan(|expired|, page, PAGE_SIZE);
    var offset := Offset(page - 1, PAGE_SIZE);
    var n, m := Min(offset, |expired|), Min(offset + PAGE_SIZE, |expired|);
    assert expired[..n] + expired[n..m] + expired[m..] == expired;
    if Window(expired, offset, PAGE_SIZE) == [] {
      assert expired[n..m] == [];
      assert expired[..n] + [] + expired[m..] == expired;
    }
  }

  lemma {:induction false} NoneKept(ops: seq<Entry>, trackers: set<nat>)
    requires AllFound(ops, trackers)
    ensures Kept(ops, trackers) == []
  {
    if ops != [] { NoneKept(ops[..|ops| - 1], trackers); }
  }

  /** With a list of one page at most, exactly the operations without a tracker are left. */
  lemma OnePage(expired: seq<Entry>, trackers: set<nat>)
    requires |expired| <= PAGE_SIZE
    ensures Sweep(expired, 1, trackers) == (Kept(expired, trackers), expired)
  {
    MoreThan(|expired|, 1, PAGE_SIZE);
    assert Offset(0, PAGE_SIZE) == 0;
    assert expired[0..|expired|] == expired;
    assert [] + Kept(expired, trackers) + [] == Kept(expired, trackers);
  }

  /** What one page does to the sweep. */
  lemma SweepStep(expired: seq<Entry>, page: nat, trackers: set<nat>) returns (later: seq<Entry>)
    requires page >= 1
    ensures var offset := Offset(page - 1, PAGE_SIZE);
      var data, left := Window(expired, offset, PAGE_SIZE), AfterPage(expired, offset, trackers);
      && Sweep(expired, page, trackers).1 == data + later
      && (data != [] && HasNextPage(expired, page) ==>
            && Sweep(left, page + 1, trackers) == (Sweep(expired, page, trackers).0, later)
            && |left| - Offset(page, PAGE_SIZE) < |expired| - offset && |expired| >= offset)
      && (!(data != [] && HasNextPage(expired, page)) ==>
            Sweep(expired, page, trackers).0 == left && later == [])
  {
    var left := AfterPage(expired, Offset(page - 1, PAGE_SIZE), trackers);
    PageStep(expired, page, trackers);
    later := [];
    if Window(expired, Offset(page - 1, PAGE_SIZE), PAGE_SIZE) != [] && HasNextPage(expired, page) {
      later := Sweep(left, page + 1, trackers).1;
    }
  }

  /** How many operations of a list have a stored tracker. */
  function CountFound(ops: seq<Entry>, trackers: set<nat>): (n: nat)
    ensures n <= |ops|
  {
    KeptIsShorter(ops, trackers);
    |ops| - |Kept(ops, trackers)|
  }

  /**
   * Where the page handled after the first one begins, in a list of more than one page: as many operations are passed
   * over as the first page lost.
   */
  function NextHandled(rest: seq<Entry>, trackers: set<nat>): (n: nat)
    requires |rest| > PAGE_SIZE
    ensures PAGE_SIZE <= n <= |rest|
  {
    Min(PAGE_SIZE + CountFound(rest[..PAGE_SIZE], trackers), |rest|)
  }

  /** What a run leaves: of every page handled what has no stored tracker, and everything passed over. */
  function Remaining(rest: seq<Entry>, trackers: set<nat>): seq<Entry> {
    if |rest| <= PAGE_SIZE then Kept(rest, trackers)
    else
      var n := NextHandled(rest, trackers);
      Kept(rest[..PAGE_SIZE], trackers) + rest[PAGE_SIZE..n] + Remaining(rest[n..], trackers)
  }

  /** Is the operation at a position passed over? */
  predicate PassedOver(rest: seq<Entry>, trackers: set<nat>, i: nat)
    decreases |rest|
  {
    if |rest| <= PAGE_SIZE || i < PAGE_SIZE then false
    else
      var n := NextHandled(rest, trackers);
      i < n || PassedOver(rest[n..], trackers, i - n)
  }

  /** Handling a page leaves what has no stored tracker. */
  lemma PageFrom(prefix: seq<Entry>, rest: seq<Entry>, offset: nat, trackers: set<nat>)
    requires |prefix| == offset || (rest == [] && |prefix| <= offset)
    ensures var n := Min(PAGE_SIZE, |rest|);
      && Window(prefix + rest, offset, PAGE_SIZE) == rest[..n]
      && AfterPage(prefix + rest, offset, trackers) == prefix + Kept(rest[..n], trackers) + rest[n..]
  {
    var n := Min(PAGE_SIZE, |rest|);
    var expired := prefix + rest;
    var a, b := Min(offset, |expired|), Min(offset + PAGE_SIZE, |expired|);
    assert expired[..a] == prefix && expired[a..b] == rest[..n] && expired[b..] == rest[n..];
  }

  /** Turning the page passes over as many operations as were lost. */
  lemma Unwind(prefix: seq<Entry>, rest: seq<Entry>, trackers: set<nat>)
    returns (skipped: seq<Entry>, rest': seq<Entry>)
    requires |rest| > PAGE_SIZE
    ensures |rest'| < |rest|
    ensures var kept := Kept(rest[..PAGE_SIZE], trackers);
      && (|kept + skipped| == PAGE_SIZE || (rest' == [] && |kept + skipped| <= PAGE_SIZE))
      && prefix + kept + rest[PAGE_SIZE..] == prefix + (kept + skipped) + rest'
      && prefix + (kept + skipped) + Remaining(rest', trackers) == prefix + Remaining(rest, trackers)
  {
    var n := NextHandled(rest, trackers);
    var kept := Kept(rest[..PAGE_SIZE], trackers);
    skipped, rest' := rest[PAGE_SIZE..n], rest[n..];
    assert rest[PAGE_SIZE..] == skipped + rest';
    assert Remaining(rest, trackers) == kept + skipped + Remaining(rest', trackers);
  }

  /** The sweep from the page after what was skipped: `prefix` is as long as the pages before. */
  lemma {:induction false} SweepFrom(prefix: seq<Entry>, rest: seq<Entry>, page: nat, trackers: set<nat>)
    requires page >= 1
    requires |prefix| == Offset(page - 1, PAGE_SIZE) || (rest == [] && |prefix| <= Offset(page - 1, PAGE_SIZE))
    ensures Sweep(prefix + rest, page, trackers).0 == prefix + Remaining(rest, trackers)
    decreases |rest|
  {
    hide Sweep, Window, AfterPage, Offset, CeilDiv, Remaining, Kept;
    var _ := SweepStep(prefix + rest, page, trackers);
    PageFrom(prefix, rest, Offset(page - 1, PAGE_SIZE), trackers);
    NextPageFrom(prefix, rest, page);
    if |rest| > PAGE_SIZE {
      var skipped, rest' := Unwind(prefix, rest, trackers);
      SweepFrom(prefix + (Kept(rest[..PAGE_SIZE], trackers) + skipped), rest', page + 1, trackers);
    } else {
      LastPage(rest, trackers);
      assert rest[..|rest|] == rest && rest[|rest|..] == [];
      assert prefix + Kept(rest, trackers) + [] == prefix + Kept(rest, trackers);
    }
  }

  /** There is a next page exactly if the operations not yet reached are more than one page. */
  lemma NextPageFrom(prefix: seq<Entry>, rest: seq<Entry>, page: nat)
    requires page >= 1
    requires |prefix| == Offset(page - 1, PAGE_SIZE) || (rest == [] && |prefix| <= Offset(page - 1, PAGE_SIZE))
    ensures HasNextPage(prefix + rest, page) <==> |rest| > PAGE_SIZE
    ensures Offset(page, PAGE_SIZE) == Offset(page - 1, PAGE_SIZE) + PAGE_SIZE
  {
    MoreThan(|prefix + rest|, page, PAGE_SIZE);
  }

  lemma LastPage(rest: seq<Entry>, trackers: set<nat>)
    requires |rest| <= PAGE_SIZE
    ensures Remaining(rest, trackers) == Kept(rest, trackers)
  {
  }

  /** What a run leaves, for every list and every set of trackers. */
  lemma SweepLeaves(expired: seq<Entry>, trackers: set<nat>)
    ensures Sweep(expired, 1, trackers).0 == Remaining(expired, trackers)
  {
    assert Offset(0, PAGE_SIZE) == 0;
    SweepFrom([], expired, 1, trackers);
    assert [] + expired == expired && [] + Remaining(expired, trackers) == Remaining(expired, trackers);
  }

  lemma {:induction false} KeptMembers(ops: seq<Entry>, trackers: set<nat>, e: Entry)
    ensures e in Kept(ops, trackers) <==> e in ops && !Found(e, trackers)
  {
    if ops != [] {
      KeptMembers(ops[..|ops| - 1], trackers, e);
      assert ops == ops[..|ops| - 1] + [ops[|ops| - 1]];
    }
  }

  lemma NothingKept(ops: seq<Entry>, trackers: set<nat>)
    ensures Kept(ops, trackers) == [] <==> AllFound(ops, trackers)
  {
    if AllFound(ops, trackers) {
      NoneKept(ops, trackers);
    } else {
      var i :| 0 <= i < |ops| && !Found(ops[i], trackers);
      KeptMembers(ops, trackers, ops[i]);
    }
  }

  /** A run is complete exactly if all that expired fits one page and every tracker is stored. */
  lemma CompleteExactly(expired: seq<Entry>, trackers: set<nat>)
    ensures Sweep(expired, 1, trackers).0 == [] <==>
      |expired| <= 100 && forall i :: 0 <= i < |expired| ==>
        expired[i].tracker.Some? && expired[i].tracker.value in trackers
  {
    SweepLeaves(expired, trackers);
    if |expired| <= PAGE_SIZE {
      NothingKept(expired, trackers);
    } else if Kept(expired[..PAGE_SIZE], trackers) == [] {
      assert expired[PAGE_SIZE..NextHandled(expired, trackers)] != [];
    }
  }

  lemma {:induction false} KeptConcat(a: seq<Entry>, b: seq<Entry>, trackers: set<nat>)
    ensures Kept(a + b, trackers) == Kept(a, trackers) + Kept(b, trackers)
    ensures CountFound(a + b, trackers) == CountFound(a, trackers) + CountFound(b, trackers)
  {
    if b == [] {
      assert a + b == a;
    } else {
      var n := |b| - 1;
      assert (a + b)[..|a + b| - 1] == a + b[..n];
      KeptConcat(a, b[..n], trackers);
    }
  }

  lemma {:induction false} KeptIsKept(ops: seq<Entry>, trackers: set<nat>)
    ensures Kept(Kept(ops, trackers), trackers) == Kept(ops, trackers)
    ensures CountFound(Kept(ops, trackers), trackers) == 0
  {
    if ops != [] {
      var n := |ops| - 1;
      KeptIsKept(ops[..n], trackers);
      if !Found(ops[n], trackers) {
        assert (Kept(ops[..n], trackers) + [ops[n]])[..|Kept(ops[..n], trackers)|] == Kept(ops[..n], trackers);
      } else {
        assert Kept(ops, trackers) == Kept(ops[..n], trackers);
      }
    }
  }

  lemma KeptOfThree(a: seq<Entry>, b: seq<Entry>, c: seq<Entry>, trackers: set<nat>)
    ensures Kept(a + b + c, trackers) == Kept(a, trackers) + Kept(b, trackers) + Kept(c, trackers)
    ensures CountFound(a + b + c, trackers)
      == CountFound(a, trackers) + CountFound(b, trackers) + CountFound(c, trackers)
  {
    KeptConcat(a, b, trackers);
    KeptConcat(a + b, c, trackers);
  }

  /** A long list is a page, what is passed over after it, and a later list. */
  lemma RemainingParts(rest: seq<Entry>, trackers: set<nat>)
    returns (first: seq<Entry>, second: seq<Entry>, later: seq<Entry>)
    requires |rest| > PAGE_SIZE
    ensures rest == first + second + later && |later| < |rest|
    ensures Remaining(rest, trackers) == Kept(first, trackers) + second + Remaining(later, trackers)
    ensures |second| <= CountFound(first, trackers)
  {
    var n := NextHandled(rest, trackers);
    first, second, later := rest[..PAGE_SIZE], rest[PAGE_SIZE..n], rest[n..];
  }

  lemma {:induction false} RemainingHalves(rest: seq<Entry>, trackers: set<nat>)
    ensures Kept(Remaining(rest, trackers), trackers) == Kept(rest, trackers)
    ensures 2 * CountFound(Remaining(rest, trackers), trackers) <= CountFound(rest, trackers)
    decreases |rest|
  {
    hide Remaining, Kept, CountFound;
    if |rest| <= PAGE_SIZE {
      LastPage(rest, trackers);
      KeptIsKept(rest, trackers);
    } else {
      var first, second, later := RemainingParts(rest, trackers);
      RemainingHalves(later, trackers);
      KeptIsKept(first, trackers);
      KeptOfThree(Kept(first, trackers), second, Remaining(later, trackers), trackers);
      KeptOfThree(first, second, later, trackers);
    }
  }

  /**
   * A run clears at least half of the operations it can clear, those whose tracker is stored, and none of the others.
   */
  lemma AtLeastHalved(expired: seq<Entry>, trackers: set<nat>)
    ensures var left := Sweep(expired, 1, trackers).0;
      && 2 * CountFound(left, trackers) <= CountFound(expired, trackers)
      && Kept(left, trackers) == Kept(expired, trackers)
  {
    SweepLeaves(expired, trackers);
    RemainingHalves(expired, trackers);
  }

  ghost predicate DistinctIds(s: seq<Entry>) {
    forall i, j :: 0 <= i < j < |s| ==> s[i].id != s[j].id
  }

  /** Nothing is left that was not there. */
  lemma {:induction false} RemainingMembers(rest: seq<Entry>, trackers: set<nat>, e: Entry)
    ensures e in Remaining(rest, trackers) ==> e in rest
    decreases |rest|
  {
    if |rest| <= PAGE_SIZE {
      KeptMembers(rest, trackers, e);
    } else {
      var n := NextHandled(rest, trackers);
      var first, second, later := rest[..PAGE_SIZE], rest[PAGE_SIZE..n], rest[n..];
      assert Remaining(rest, trackers) == Kept(first, trackers) + second + Remaining(later, trackers);
      assert rest == first + second + later;
      hide Remaining, NextHandled;
      KeptMembers(first, trackers, e);
      RemainingMembers(later, trackers, e);
    }
  }

  /** Exactly which operations keep their tag: those without a stored tracker, and those passed over. */
  lemma LeftExactly(expired: seq<Entry>, trackers: set<nat>, i: nat)
    requires i < |expired| && DistinctIds(expired)
    ensures expired[i] in Sweep(expired, 1, trackers).0 <==>
      !Found(expired[i], trackers) || PassedOver(expired, trackers, i)
  {
    SweepLeaves(expired, trackers);
    RemainingExactly(expired, trackers, i);
  }

  lemma {:induction false} RemainingExactly(rest: seq<Entry>, trackers: set<nat>, i: nat)
    requires i < |rest| && DistinctIds(rest)
    ensures rest[i] in Remaining(rest, trackers) <==> !Found(rest[i], trackers) || PassedOver(rest, trackers, i)
    decreases |rest|
  {
    var e := rest[i];
    if |rest| <= PAGE_SIZE {
      KeptMembers(rest, trackers, e);
    } else {
      var n := NextHandled(rest, trackers);
      var first, second, later := rest[..PAGE_SIZE], rest[PAGE_SIZE..n], rest[n..];
      assert Remaining(rest, trackers) == Kept(first, trackers) + second + Remaining(later, trackers);
      assert PassedOver(rest, trackers, i) <==> i >= PAGE_SIZE && (i < n || PassedOver(later, trackers, i - n));
      hide Remaining, PassedOver, NextHandled;
      KeptMembers(first, trackers, e);
      RemainingMembers(later, trackers, e);
      if i < PAGE_SIZE {
        assert first[i] == e && e !in second && e !in later;
      } else if i < n {
        assert second[i - PAGE_SIZE] == e;
      } else {
        assert later[i - n] == e && e !in first && e !in second;
        RemainingExactly(later, trackers, i - n);
      }
    }
  }

  lemma DropTwoPages(i: nat, size: nat)
    requires size > 0 && i >= 2 * size
    ensures i / size % 2 == (i - 2 * size) / size % 2
  {
    var q, r := i / size, i % size;
    assert i == size * q + r;
    if q < 2 { MulMonotone(size, q + 1, 2); }
    assert i - 2 * size == size * (q - 2) + r;
    DivUnique(i - 2 * size, size, q - 2, r);
  }

  /** Where every tracker is stored, every second page is passed over, and no other operation keeps its tag. */
  lemma {:induction false} EverySecondPageIsLeft(expired: seq<Entry>, trackers: set<nat>, i: nat)
    requires i < |expired| && AllFound(expired, trackers)
    ensures PassedOver(expired, trackers, i) <==> i / 100 % 2 == 1
    decreases |expired|
  {
    if i < PAGE_SIZE {
      DivUnique(i, PAGE_SIZE, 0, i);
    } else {
      NoneKept(expired[..PAGE_SIZE], trackers);
      var n := NextHandled(expired, trackers);
      assert n == Min(2 * PAGE_SIZE, |expired|);
      if i < 2 * PAGE_SIZE {
        DivUnique(i, PAGE_SIZE, 1, i - PAGE_SIZE);
      } else {
        DropTwoPages(i, PAGE_SIZE);
        EverySecondPageIsLeft(expired[n..], trackers, i - n);
      }
    }
  }

  /** The list without an operation. */
  function Without(s: seq<Entry>, id: nat): seq<Entry> {
    if s == [] then []
    else Without(s[..|s| - 1], id) + (if s[|s| - 1].id == id then [] else [s[|s| - 1]])
  }

  lemma {:induction false} WithoutNone(s: seq<Entry>, id: nat)
    requires forall i :: 0 <= i < |s| ==> s[i].id != id
    ensures Without(s, id) == s
  {
    if s != [] { WithoutNone(s[..|s| - 1], id); }
  }

  lemma {:induction false} WithoutConcat(a: seq<Entry>, b: seq<Entry>, id: nat)
    ensures Without(a + b, id) == Without(a, id) + Without(b, id)
  {
    if b == [] {
      assert a + b == a;
    } else {
      var n := |b| - 1;
      assert (a + b)[..|a + b| - 1] == a + b[..n];
      WithoutConcat(a, b[..n], id);
    }
  }

  lemma DistinctWithout(a: seq<Entry>, e: Entry, b: seq<Entry>)
    requires DistinctIds(a + [e] + b)
    ensures DistinctIds(a + b)
    ensures forall i :: 0 <= i < |a| ==> a[i].id != e.id
    ensures forall i :: 0 <= i < |b| ==> b[i].id != e.id
  {
    var s := a + [e] + b;
    assert s[|a|] == e;
    assert forall i :: 0 <= i < |a| ==> s[i] == a[i];
    assert forall i :: 0 <= i < |b| ==> s[|a| + 1 + i] == b[i];
  }

  lemma WithoutOne(a: seq<Entry>, e: Entry, b: seq<Entry>)
    requires DistinctIds(a + [e] + b)
    ensures Without(a + [e] + b, e.id) == a + b && DistinctIds(a + b)
  {
    DistinctWithout(a, e, b);
    WithoutConcat(a + [e], b, e.id);
    WithoutConcat(a, [e], e.id);
    WithoutNone(a, e.id);
    WithoutNone(b, e.id);
    assert [e][..0] == [];
    assert Without([e][..0], e.id) == [];
  }

  // ----- The job -----

  ghost predicate AllNameTrackers(ops: seq<Entry>) {
    forall i :: 0 <= i < |ops| ==> ops[i].tracker.Some?
  }

  /** What the job sees of one tag: the operations that carry it and expired, and the counter of every tracker. */
  class SyncJob {
    var expired: seq<Entry>
    var counters: map<nat, int>

    constructor (expired: seq<Entry>, counters: map<nat, int>)
      ensures this.expired == expired && this.counters == counters
    {
      this.expired, this.counters := expired, counters;
    }

    /**
     * Handles one operation: takes it out of its counter and the tag off it, or skips it if its tracker is not found.
     * An operation that names no tracker is an error.
     */
    method Handle(ghost a: seq<Entry>, op: Entry, ghost b: seq<Entry>) returns (ok: bool)
      requires expired == a + [op] + b && DistinctIds(expired)
      modifies this
      ensures ok <==> op.tracker.Some?
      ensures op.tracker.Some? && op.tracker.value in old(counters) ==>
        var used := old(counters)[op.tracker.value];
        && expired == a + b
        && counters == old(counters)[op.tracker.value := if used < op.value then 0 else used - op.value]
      ensures op.tracker.None? || op.tracker.value !in old(counters) ==>
        expired == old(expired) && counters == old(counters)
      ensures counters == TakenOut(old(counters), op)
      ensures expired == a + Kept([op], counters.Keys) + b && DistinctIds(expired)
    {
      assert [op][..0] == [];
      assert Kept([op][..0], counters.Keys) == [];
      if op.tracker.None? { return false; }
      if op.tracker.value in counters {
        var used := counters[op.tracker.value] - op.value;
        if used < 0 { used := 0; }
        counters := counters[op.tracker.value := used];
        WithoutOne(a, op, b);
        expired := Without(expired, op.id);
        assert a + [] + b == a + b;
      }
      ok := true;
    }

    /** Handles one page, up to the first error. */
    method HandlePage(data: seq<Entry>, ghost a: seq<Entry>, ghost b: seq<Entry>) returns (ok: bool)
      requires expired == a + data + b && DistinctIds(expired)
      modifies this
      ensures counters.Keys == old(counters.Keys) && DistinctIds(expired)
      ensures ok <==> AllNameTrackers(data)
      ensures ok ==> counters == AllTakenOut(old(counters), data)
      ensures ok ==> expired == a + Kept(data, counters.Keys) + b
    {
      for i := 0 to |data|
        invariant counters == AllTakenOut(old(counters), data[..i]) && DistinctIds(expired)
        invariant expired == a + Kept(data[..i], counters.Keys) + (data[i..] + b)
        invariant forall k :: 0 <= k < i ==> data[k].tracker.Some?
      {
        ghost var kept := Kept(data[..i], counters.Keys);
        assert a + kept + (data[i..] + b) == a + kept + [data[i]] + (data[i + 1..] + b);
        ok := Handle(a + kept, data[i], data[i + 1..] + b);
        if !ok { return; }
        assert data[..i + 1][..i] == data[..i];
        KeptNext(data, i, counters.Keys);
        assert a + kept + Kept([data[i]], counters.Keys) == a + (kept + Kept([data[i]], counters.Keys));
      }
      assert data[..|data|] == data && data[|data|..] + b == b;
      ok := true;
    }

    /** Fetches a page, if it holds anything, and handles it. `more` is whether there is a next page. */
    method FetchPage(page: nat) returns (data: seq<Entry>, more: bool, ok: bool)
      requires page >= 1 && DistinctIds(expired)
      modifies this
      ensures counters.Keys == old(counters.Keys) && DistinctIds(expired)
      ensures data == Window(old(expired), Offset(page - 1, PAGE_SIZE), PAGE_SIZE)
      ensures more <==> data != [] && HasNextPage(old(expired), page)
      ensures ok <==> AllNameTrackers(data)
      ensures ok ==> counters == AllTakenOut(old(counters), data)
      ensures ok ==> expired == AfterPage(old(expired), Offset(page - 1, PAGE_SIZE), counters.Keys)
    {
      var total, offset := |expired|, Offset(page - 1, PAGE_SIZE);
      data := Window(expired, offset, PAGE_SIZE);
      var pageTotal := if total == 0 then 0 else CeilDiv(total, PAGE_SIZE);
      PageStep(expired, page, counters.Keys);
      if |data| == 0 { return data, false, true; }
      more := page < pageTotal;
      hide Sweep, Window, Offset, CeilDiv, AfterPage, DistinctIds, AllNameTrackers;
      ok := HandlePage(data, expired[..offset], expired[offset + |data|..]);
    }

    /** One tag, whatever the counters hold. An error ends the run where it is met. */
    method Execute() returns (ok: bool)
      requires DistinctIds(expired)
      modifies this
      ensures counters.Keys == old(counters.Keys)
      ensures var (left, fetched) := Sweep(old(expired), 1, old(counters).Keys);
        && (ok <==> AllNameTrackers(fetched))
        && (ok ==> expired == left && counters == AllTakenOut(old(counters), fetched))
    {
      var page, goOn := 1, true;
      ghost var trackers, start, seen := counters.Keys, counters, [];
      ghost var left, fetched := Sweep(expired, 1, trackers).0, Sweep(expired, 1, trackers).1;
      assert [] + fetched == fetched && AllNameTrackers(seen);
      hide Sweep, Window, AfterPage, Offset, AllTakenOut, DistinctIds, AllNameTrackers, HasNextPage;
      while goOn
        invariant page >= 1 && DistinctIds(expired) && counters.Keys == trackers
        invariant counters == AllTakenOut(start, seen) && AllNameTrackers(seen)
        invariant goOn ==> left == Sweep(expired, page, trackers).0
        invariant goOn ==> fetched == seen + Sweep(expired, page, trackers).1
        invariant !goOn ==> expired == left && seen == fetched
        decreases goOn, |expired| - Offset(page - 1, PAGE_SIZE)
      {
        ghost var before := expired;
        ghost var later := SweepStep(before, page, trackers);
        var data, more;
        data, more, ok := FetchPage(page);
        NamedConcat(data, later);
        NamedConcat(seen, data + later);
        if !ok { return; }
        AllTakenOutConcat(start, seen, data);
        NamedConcat(seen, data);
        Regroup(seen, data, later);
        seen := seen + data;
        if more { page := page + 1; } else { goOn := false; }
      }
      ok := true;
    }
  }

  lemma NamedConcat(a: seq<Entry>, b: seq<Entry>)
    ensures AllNameTrackers(a + b) <==> AllNameTrackers(a) && AllNameTrackers(b)
  {
    if AllNameTrackers(a + b) {
      assert forall i :: 0 <= i < |a| ==> a[i] == (a + b)[i];
      assert forall i :: 0 <= i < |b| ==> b[i] == (a + b)[|a| + i];
    }
  }

  lemma Regroup(a: seq<Entry>, b: seq<Entry>, c: seq<Entry>)
    ensures a + (b + c) == a + b + c
  {
  }

  /** Being on a page before the last is having more than the pages up to it hold. */
  lemma MoreThan(total: nat, page: nat, size: nat)
    requires size > 0
    ensures page < CeilDiv(total, size) <==> total > Offset(page, size)
    ensures page > 0 ==> Offset(page, size) == Offset(page - 1, size) + size
  {
    CeilingIsLeast(total, size);
    var k := CeilDiv(total, size);
    MulMonotone(size, page + 1, k);
    MulMonotone(size, k, page);
    assert size * page == Offset(page, size) && size * k == k * size && size * (page + 1) == Offset(page, size) + size;
  }
}
