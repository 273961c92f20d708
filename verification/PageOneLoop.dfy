/**
 * A loop that always fetches page 1 of a shrinking result list. Working on a page removes its members from the list,
 * except those that are stuck. The loop ends with the first fetch whose result list fits one page.
 */
module PageOneLoop {
  import opened Division

  /** The stuck members, in order. */
  function Left(ids: seq<nat>, stuck: set<nat>): (r: seq<nat>)
    ensures |r| <= |ids|
  {
    if ids == [] then [] else (if ids[0] in stuck then [ids[0]] else []) + Left(ids[1..], stuck)
  }

  function Page(ids: seq<nat>, size: nat): seq<nat> {
    if |ids| <= size then ids else ids[..size]
  }

  /** What the next fetch finds. */
  function AfterFetch(ids: seq<nat>, stuck: set<nat>, size: nat): (r: seq<nat>)
    ensures |r| <= |ids|
  {
    Left(Page(ids, size), stuck) + ids[|Page(ids, size)|..]
  }

  function AfterFetches(ids: seq<nat>, stuck: set<nat>, size: nat, k: nat): seq<nat>
    decreases k
  {
    if k == 0 then ids else AfterFetches(AfterFetch(ids, stuck, size), stuck, size, k - 1)
  }

  /** Some fetch finds a list that fits one page. */
  ghost predicate Terminates(ids: seq<nat>, stuck: set<nat>, size: nat) {
    exists k: nat :: |AfterFetches(ids, stuck, size, k)| <= size
  }

  /** Fewer stuck members than a page holds; or exactly a page of them, with nothing to do after the last. */
  predicate Drains(ids: seq<nat>, stuck: set<nat>, size: nat) {
    var u := |Left(ids, stuck)|;
    u < size || (u == size && (ids == [] || ids[|ids| - 1] in stuck))
  }

  lemma {:induction false} LeftConcat(a: seq<nat>, b: seq<nat>, stuck: set<nat>)
    ensures Left(a + b, stuck) == Left(a, stuck) + Left(b, stuck)
  {
    if a == [] {
      assert a + b == b;
    } else {
      LeftConcat(a[1..], b, stuck);
      var front := if a[0] in stuck then [a[0]] else [];
      calc {
        Left(a + b, stuck);
        { assert (a + b)[0] == a[0] && (a + b)[1..] == a[1..] + b; }
        front + Left(a[1..] + b, stuck);
        front + (Left(a[1..], stuck) + Left(b, stuck));
        (front + Left(a[1..], stuck)) + Left(b, stuck);
        Left(a, stuck) + Left(b, stuck);
      }
    }
  }

  lemma {:induction false} LeftIdempotent(ids: seq<nat>, stuck: set<nat>)
    ensures Left(Left(ids, stuck), stuck) == Left(ids, stuck)
  {
    if ids != [] {
      LeftIdempotent(ids[1..], stuck);
      LeftConcat(if ids[0] in stuck then [ids[0]] else [], Left(ids[1..], stuck), stuck);
    }
  }

  lemma {:induction false} LeftAll(ids: seq<nat>, stuck: set<nat>)
    ensures |Left(ids, stuck)| == |ids| <==> forall i :: 0 <= i < |ids| ==> ids[i] in stuck
  {
    if ids != [] {
      LeftAll(ids[1..], stuck);
      if ids[0] in stuck {
        assert forall i :: 0 < i < |ids| ==> ids[i] == ids[1..][i - 1];
      }
    }
  }

  lemma {:induction false} LeftMembers(ids: seq<nat>, stuck: set<nat>, x: nat)
    ensures x in Left(ids, stuck) <==> x in ids && x in stuck
  {
    if ids != [] {
      LeftMembers(ids[1..], stuck, x);
      assert x in ids <==> x == ids[0] || x in ids[1..];
    }
  }

  /** Nothing stuck is lost by a fetch, nothing else of the page survives, and the rest is untouched. */
  lemma FetchKeepsStuck(ids: seq<nat>, stuck: set<nat>, size: nat)
    ensures Left(AfterFetch(ids, stuck, size), stuck) == Left(ids, stuck)
    ensures |ids| > size ==> AfterFetch(ids, stuck, size)[|AfterFetch(ids, stuck, size)| - 1] == ids[|ids| - 1]
  {
    var page, rest := Page(ids, size), ids[|Page(ids, size)|..];
    assert ids == page + rest;
    LeftConcat(page, rest, stuck);
    LeftConcat(Left(page, stuck), rest, stuck);
    LeftIdempotent(page, stuck);
  }

  lemma FetchKeepsDrains(ids: seq<nat>, stuck: set<nat>, size: nat)
    requires |ids| > size
    ensures Drains(AfterFetch(ids, stuck, size), stuck, size) <==> Drains(ids, stuck, size)
  {
    FetchKeepsStuck(ids, stuck, size);
  }

  /** A draining list longer than a page has something to do on its first page. */
  lemma DrainingShrinks(ids: seq<nat>, stuck: set<nat>, size: nat)
    requires Drains(ids, stuck, size) && |ids| > size
    ensures |AfterFetch(ids, stuck, size)| < |ids|
  {
    var page, rest := ids[..size], ids[size..];
    assert ids == page + rest;
    LeftConcat(page, rest, stuck);
    if |Left(page, stuck)| == size {
      assert ids[|ids| - 1] == rest[|rest| - 1];
      LeftMembers(rest, stuck, rest[|rest| - 1]);
    }
  }

  lemma {:induction false} DrainingTerminates(ids: seq<nat>, stuck: set<nat>, size: nat) returns (k: nat)
    requires Drains(ids, stuck, size)
    ensures |AfterFetches(ids, stuck, size, k)| <= size
    decreases |ids|
  {
    if |ids| <= size {
      k := 0;
    } else {
      DrainingShrinks(ids, stuck, size);
      FetchKeepsDrains(ids, stuck, size);
      var m := DrainingTerminates(AfterFetch(ids, stuck, size), stuck, size);
      k := m + 1;
    }
  }

  lemma {:induction false} OtherwiseNeverFits(ids: seq<nat>, stuck: set<nat>, size: nat, k: nat)
    requires !Drains(ids, stuck, size)
    ensures |AfterFetches(ids, stuck, size, k)| > size
    decreases k
  {
    LeftAll(ids, stuck);
    assert |ids| > size;
    if k > 0 {
      FetchKeepsDrains(ids, stuck, size);
      OtherwiseNeverFits(AfterFetch(ids, stuck, size), stuck, size, k - 1);
    }
  }

  /** When exactly the loop ends. */
  lemma TerminatesExactly(ids: seq<nat>, stuck: set<nat>, size: nat)
    ensures Terminates(ids, stuck, size) <==> Drains(ids, stuck, size)
  {
    if Drains(ids, stuck, size) {
      var k := DrainingTerminates(ids, stuck, size);
    } else if Terminates(ids, stuck, size) {
      var k: nat :| |AfterFetches(ids, stuck, size, k)| <= size;
      OtherwiseNeverFits(ids, stuck, size, k);
    }
  }

  /** The list without what is gone. */
  function Rest(ids: seq<nat>, gone: set<nat>): seq<nat> {
    if ids == [] then []
    else Rest(ids[..|ids| - 1], gone) + (if ids[|ids| - 1] in gone then [] else [ids[|ids| - 1]])
  }

  /** What is stuck stays if only other members go. */
  lemma {:induction false} RestKeepsLeft(ids: seq<nat>, gone: set<nat>, stuck: set<nat>)
    requires gone !! stuck
    ensures Left(Rest(ids, gone), stuck) == Left(ids, stuck)
  {
    if ids != [] {
      var front, last := ids[..|ids| - 1], ids[|ids| - 1];
      RestKeepsLeft(front, gone, stuck);
      assert ids == front + [last];
      LeftConcat(front, [last], stuck);
      LeftConcat(Rest(front, gone), [last], stuck);
      assert [last][1..] == [];
      assert Rest(front, gone) + [] == Rest(front, gone) && Left(front, stuck) + [] == Left(front, stuck);
    }
  }

  lemma {:induction false} RestOfNone(ids: seq<nat>, gone: set<nat>)
    requires forall i :: 0 <= i < |ids| ==> ids[i] !in gone
    ensures Rest(ids, gone) == ids
  {
    if ids != [] { RestOfNone(ids[..|ids| - 1], gone); }
  }

  /** A list with nothing to do drains if it holds no more than a page. */
  lemma AllStuckDrains(ids: seq<nat>, stuck: set<nat>, size: nat)
    requires forall i :: 0 <= i < |ids| ==> ids[i] in stuck
    requires |Left(ids, stuck)| <= size
    ensures Drains(ids, stuck, size)
  {
  }

  /** A fetch of a list without repetition takes what is not stuck from its first page, and nothing else. */
  lemma FetchRemovesExactly(ids: seq<nat>, stuck: set<nat>, size: nat, i: nat)
    requires i < |ids| && forall j, k :: 0 <= j < k < |ids| ==> ids[j] != ids[k]
    ensures ids[i] in AfterFetch(ids, stuck, size) <==> i >= size || ids[i] in stuck
  {
    var page, rest := Page(ids, size), ids[|Page(ids, size)|..];
    LeftMembers(page, stuck, ids[i]);
    assert ids[i] in AfterFetch(ids, stuck, size) <==> ids[i] in Left(page, stuck) || ids[i] in rest;
    if i < |page| {
      assert page[i] == ids[i];
      assert ids[i] !in rest;
    } else {
      assert rest[i - |page|] == ids[i];
    }
  }

  /** How many fetches the loop makes. */
  function Fetches(ids: seq<nat>, stuck: set<nat>, size: nat): nat
    requires Drains(ids, stuck, size)
    decreases |ids|
  {
    if |ids| <= size then 1
    else
      DrainingShrinks(ids, stuck, size);
      FetchKeepsDrains(ids, stuck, size);
      1 + Fetches(AfterFetch(ids, stuck, size), stuck, size)
  }

  /** With nothing stuck the loop makes one fetch per page, and one for an empty list. */
  lemma {:induction false} FetchesWhenNothingIsStuck(ids: seq<nat>, stuck: set<nat>, size: nat)
    requires size > 0 && Left(ids, stuck) == []
    ensures Drains(ids, stuck, size)
    ensures Fetches(ids, stuck, size) == if ids == [] then 1 else CeilDiv(|ids|, size)
    decreases |ids|
  {
    if |ids| > size {
      var page, rest := ids[..size], ids[size..];
      assert ids == page + rest;
      LeftConcat(page, rest, stuck);
      assert AfterFetch(ids, stuck, size) == rest;
      FetchesWhenNothingIsStuck(rest, stuck, size);
      CeilingStep(|ids|, size);
    } else if |ids| > 0 {
      CeilingOfOne(|ids|, size);
    }
  }
}
