/** The sprite rotator: the cyclic index cur_kirby into the catalog, advanced
    once per update and stepped back once after the first render at load. */
module Rotator {
  import opened Catalog

  predicate InRange(k: int) {
    0 <= k < NumKirbies
  }

  /** One place forward, wrapping from 23 to 0. */
  function Advance(k: int): (r: int)
    requires InRange(k)
    ensures InRange(r)
    ensures r == (k + 1) % NumKirbies
  {
    if k + 1 > NumKirbies - 1 then 0 else k + 1
  }

  /** One place back, wrapping from 0 to 23: undoes the advance of the
      render done at load. */
  function StepBack(k: int): (r: int)
    requires InRange(k)
    ensures InRange(r)
    ensures Advance(r) == k
  {
    (k - 1 + NumKirbies) % NumKirbies
  }

  /** Stepping back after an advance returns to the original index. */
  lemma StepBackAdvance(k: int)
    requires InRange(k)
    ensures StepBack(Advance(k)) == k
  {
  }

  /** The catalog indices rendered by n consecutive updates that begin with
      cur_kirby == start: each update renders the index it finds, then advances. */
  function RenderedIndices(start: int, n: nat): (s: seq<int>)
    requires InRange(start)
    ensures |s| == n
    ensures forall i :: 0 <= i < n ==> InRange(s[i])
    decreases n
  {
    if n == 0 then [] else [start] + RenderedIndices(Advance(start), n - 1)
  }

  /** The i-th update renders index (start + i) mod 24. */
  lemma {:induction false} RenderedIndexAt(start: int, n: nat, i: nat)
    requires InRange(start) && i < n
    ensures RenderedIndices(start, n)[i] == (start + i) % NumKirbies
    decreases n
  {
    if i > 0 {
      RenderedIndexAt(Advance(start), n - 1, i - 1);
      assert (Advance(start) + (i - 1)) % NumKirbies == (start + i) % NumKirbies;
    }
  }

  /** From start, the update that renders k is the ((k - start) mod 24)-th. */
  lemma OffsetReaching(start: int, k: int)
    requires InRange(start) && InRange(k)
    ensures (start + (k - start + NumKirbies) % NumKirbies) % NumKirbies == k
  {
  }

  /** Distinct updates of one cycle render distinct indices. */
  lemma DistinctOffsets(start: int, i: int, j: int)
    requires InRange(start) && 0 <= i < j < NumKirbies
    ensures (start + i) % NumKirbies != (start + j) % NumKirbies
  {
  }

  /** Over any 24 consecutive updates every catalog index is rendered exactly
      once: each index occurs, and no index occurs twice. */
  lemma FullCycleRendersEachIndexOnce(start: int)
    requires InRange(start)
    ensures forall k :: InRange(k) ==> k in RenderedIndices(start, NumKirbies)
    ensures forall i, j :: 0 <= i < j < NumKirbies ==>
              RenderedIndices(start, NumKirbies)[i] != RenderedIndices(start, NumKirbies)[j]
  {
    var s := RenderedIndices(start, NumKirbies);
    forall k | InRange(k) ensures k in s {
      var i := (k - start + NumKirbies) % NumKirbies;
      RenderedIndexAt(start, NumKirbies, i);
      OffsetReaching(start, k);
      assert s[i] == k;
    }
    forall i, j | 0 <= i < j < NumKirbies ensures s[i] != s[j] {
      RenderedIndexAt(start, NumKirbies, i);
      RenderedIndexAt(start, NumKirbies, j);
      DistinctOffsets(start, i, j);
    }
  }

  /** The sprites rendered by n consecutive updates that begin with
      cur_kirby == start. */
  function RenderedSprites(start: int, n: nat): (s: seq<Resource>)
    requires InRange(start)
    ensures |s| == n
    decreases n
  {
    if n == 0 then [] else [Kirbies[start]] + RenderedSprites(Advance(start), n - 1)
  }

  /** Each update shows the catalog entry at the index it renders. */
  lemma {:induction false} RenderedSpriteAt(start: int, n: nat, i: nat)
    requires InRange(start) && i < n
    ensures RenderedSprites(start, n)[i] == Kirbies[RenderedIndices(start, n)[i]]
    decreases n
  {
    if i > 0 {
      RenderedSpriteAt(Advance(start), n - 1, i - 1);
    }
  }

  /** Twenty-four consecutive updates show the catalog rotated to begin at
      the current index. */
  lemma FullCycleIsRotation(start: int)
    requires InRange(start)
    ensures RenderedSprites(start, NumKirbies) == Kirbies[start..] + Kirbies[..start]
  {
    var s := RenderedSprites(start, NumKirbies);
    var rot := Kirbies[start..] + Kirbies[..start];
    forall i | 0 <= i < NumKirbies ensures s[i] == rot[i] {
      RenderedSpriteAt(start, NumKirbies, i);
      RenderedIndexAt(start, NumKirbies, i);
      RotationAt(start, i);
    }
  }

  /** Twenty-four consecutive updates show a permutation of the catalog in
      which every sprite appears exactly once. */
  lemma FullCycleShowsEachSpriteOnce(start: int)
    requires InRange(start)
    ensures multiset(RenderedSprites(start, NumKirbies)) == multiset(Kirbies)
    ensures forall r: Resource :: multiset(RenderedSprites(start, NumKirbies))[r] == 1
  {
    FullCycleIsRotation(start);
    RotationPermutes(Kirbies, start);
    CatalogCountsOnce();
  }

  /** A rotation of a sequence has the same elements, as often. */
  lemma RotationPermutes<T>(s: seq<T>, k: int)
    requires 0 <= k <= |s|
    ensures multiset(s[k..] + s[..k]) == multiset(s)
  {
    assert s == s[..k] + s[k..];
  }

  /** Position i of the catalog rotated to begin at start holds the entry
      i places after start, counted cyclically. */
  lemma RotationAt(start: int, i: int)
    requires InRange(start) && 0 <= i < NumKirbies
    ensures (Kirbies[start..] + Kirbies[..start])[i] == Kirbies[(start + i) % NumKirbies]
  {
    var j := (start + i) % NumKirbies;
    if i < NumKirbies - start {
      assert j == start + i;
    } else {
      assert j == start + i - NumKirbies;
    }
  }
}
