/**
 * Allocation of request ids: the smallest non-negative integer that is not
 * already a key of the pending-request table.
 */
module RequestIds {

  /** `id` is the smallest non-negative integer missing from `m`. */
  ghost predicate IsLowestFree<V>(m: map<int, V>, id: int)
  {
    0 <= id && id !in m && forall k :: 0 <= k < id ==> k in m
  }

  /** A table holding every id below `n` has at least `n` entries; this is
      what makes the scan stop. */
  lemma {:induction false} PresentPrefixBound<V>(m: map<int, V>, n: nat)
    requires forall k :: 0 <= k < n ==> k in m
    ensures n <= |m|
  {
    if n > 0 {
      var rest := m - {n - 1};
      assert |rest| == |m| - 1;
      PresentPrefixBound(rest, n - 1);
    }
  }

  /** The linear scan of `AddToMap`: try 0, 1, 2, ... until an id is free.
      The scan never passes `|m|`, so it stops. */
  method FindUnusedId<V>(m: map<int, V>) returns (id: int)
    ensures IsLowestFree(m, id)
    ensures id <= |m|
  {
    id := 0;
    while id in m
      invariant 0 <= id <= |m|
      invariant forall k :: 0 <= k < id ==> k in m
      decreases |m| - id
    {
      PresentPrefixBound(m, id + 1);
      id := id + 1;
    }
  }

  /** The lowest free id is determined by the table alone. */
  lemma LowestFreeUnique<V>(m: map<int, V>, a: int, b: int)
    requires IsLowestFree(m, a) && IsLowestFree(m, b)
    ensures a == b
  {
  }

  /** Once an id below the lowest free one is released, it is the next one
      handed out; releasing a larger id does not change the next one. */
  lemma ReleasedIdReused<V>(m: map<int, V>, free: int, id: int)
    requires IsLowestFree(m, free) && id in m
    ensures 0 <= id < free ==> IsLowestFree(m - {id}, id)
    ensures id > free ==> IsLowestFree(m - {id}, free)
  {
  }
}
