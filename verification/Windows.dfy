/** Windows of a list, as `slice` cuts them and as `OFFSET` and `LIMIT` select them. */
module Windows {
  import opened Division

  function Min(a: nat, b: nat): nat {
    if a <= b then a else b
  }

  /** Where the k-th window of one size begins, counting from 0. */
  function Offset(k: nat, size: nat): nat {
    k * size
  }

  /** At most `size` elements from `start` on. */
  function Window<T>(s: seq<T>, start: nat, size: nat): (w: seq<T>)
    ensures |w| <= size
  {
    s[Min(start, |s|)..Min(start + size, |s|)]
  }

  function Concat<T>(ss: seq<seq<T>>): seq<T> {
    if ss == [] then [] else Concat(ss[..|ss| - 1]) + ss[|ss| - 1]
  }

  /** The first k windows of one size. */
  function FirstWindows<T>(s: seq<T>, size: nat, k: nat): (r: seq<seq<T>>)
    ensures |r| == k
    ensures forall i :: 0 <= i < k ==> r[i] == Window(s, Offset(i, size), size)
  {
    if k == 0 then [] else FirstWindows(s, size, k - 1) + [Window(s, Offset(k - 1, size), size)]
  }

  lemma NextWindow<T>(s: seq<T>, size: nat, k: nat)
    ensures s[..Min(Offset(k + 1, size), |s|)] == s[..Min(Offset(k, size), |s|)] + Window(s, Offset(k, size), size)
  {
    assert Offset(k + 1, size) == Offset(k, size) + size;
  }

  /** The first windows, one after the other, are the beginning of the list. */
  lemma {:induction false} FirstWindowsCover<T>(s: seq<T>, size: nat, k: nat)
    ensures Concat(FirstWindows(s, size, k)) == s[..Min(Offset(k, size), |s|)]
  {
    if k == 0 {
      assert s[..Min(Offset(0, size), |s|)] == [];
    } else {
      hide Offset;
      FirstWindowsCover(s, size, k - 1);
      var w := FirstWindows(s, size, k);
      assert w[..|w| - 1] == FirstWindows(s, size, k - 1);
      assert Concat(w) == Concat(FirstWindows(s, size, k - 1)) + Window(s, Offset(k - 1, size), size);
      NextWindow(s, size, k - 1);
    }
  }

  lemma WindowIsEmpty<T>(s: seq<T>, size: nat, k: nat)
    requires size > 0
    ensures Window(s, Offset(k, size), size) == [] <==> k >= CeilDiv(|s|, size)
    ensures k >= CeilDiv(|s|, size) ==> Min(Offset(k, size), |s|) == |s|
    ensures k + 1 < CeilDiv(|s|, size) ==> |Window(s, Offset(k, size), size)| == size
  {
    var pages := CeilDiv(|s|, size);
    CeilingIsLeast(|s|, size);
    MulMonotone(size, k + 1, pages);
    MulMonotone(size, pages, k);
    MulMonotone(size, k + 2, pages);
    assert size * (k + 1) == Offset(k, size) + size && size * (k + 2) == Offset(k, size) + 2 * size;
    assert size * pages == pages * size && size * k == Offset(k, size);
  }

  /** The page count is the least that covers the list, so every page holds something and only the last may be short. */
  lemma PagesPartition<T>(s: seq<T>, size: nat)
    requires size > 0
    ensures Concat(FirstWindows(s, size, CeilDiv(|s|, size))) == s
    ensures forall i: nat :: Window(s, Offset(i, size), size) != [] <==> i < CeilDiv(|s|, size)
    ensures forall i: nat :: i + 1 < CeilDiv(|s|, size) ==> |Window(s, Offset(i, size), size)| == size
  {
    FirstWindowsCover(s, size, CeilDiv(|s|, size));
    WindowIsEmpty(s, size, CeilDiv(|s|, size));
    assert s[..|s|] == s;
    forall i: nat
      ensures Window(s, Offset(i, size), size) != [] <==> i < CeilDiv(|s|, size)
      ensures i + 1 < CeilDiv(|s|, size) ==> |Window(s, Offset(i, size), size)| == size
    {
      WindowIsEmpty(s, size, i);
    }
  }
}
