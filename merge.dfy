/** The merge of `run_daily_update`: `list(set(existing + new))`.
    Python leaves the order of a set unspecified, so the merged list is
    described only as some duplicate-free list with the right elements. */
module Merge {
  import opened Common

  /** `r` is a possible value of `list(set(s))`. */
  predicate IsUniqueListOf<T(==)>(r: seq<T>, s: seq<T>)
  {
    NoDuplicates(r) && Elems(r) == Elems(s)
  }

  /** One possible value of `list(set(s))` (first occurrences, in order);
      it shows that some such list always exists. */
  function Dedup<T(==)>(s: seq<T>): (r: seq<T>)
    ensures IsUniqueListOf(r, s)
  {
    if s == [] then []
    else
      var t, last := Dedup(s[..|s| - 1]), s[|s| - 1];
      ElemsAppend(s[..|s| - 1], [last]);
      ElemsAppend(t, [last]);
      assert s == s[..|s| - 1] + [last];
      if last in t then t else t + [last]
  }

  /** When the stored list was already duplicate-free, the "new unique
      facts" figure is exactly the number of distinct fetched facts
      that were not stored yet. */
  lemma NewUniqueFacts<T>(existing: seq<T>, fetched: seq<T>, merged: seq<T>)
    requires NoDuplicates(existing)
    requires IsUniqueListOf(merged, existing + fetched)
    ensures |merged| - |existing| == |Elems(fetched) - Elems(existing)|
  {
    ElemsAppend(existing, fetched);
    DistinctCard(existing);
    DistinctCard(merged);
    assert Elems(merged) == Elems(existing) + (Elems(fetched) - Elems(existing));
  }

  /** Merging an empty fetch, or facts that are all stored already, adds
      nothing: same elements, same count. */
  lemma MergeAddsNothing<T>(existing: seq<T>, fetched: seq<T>, merged: seq<T>)
    requires NoDuplicates(existing)
    requires Elems(fetched) <= Elems(existing)
    requires IsUniqueListOf(merged, existing + fetched)
    ensures Elems(merged) == Elems(existing)
    ensures |merged| == |existing|
  {
    NewUniqueFacts(existing, fetched, merged);
    ElemsAppend(existing, fetched);
  }

  /** The figure counts stored duplicates as lost facts: a stored list
      holding one fact twice, merged with nothing, reports -1. */
  lemma StoredDuplicatesReportNegative<T>(x: T, merged: seq<T>)
    requires IsUniqueListOf(merged, [x, x])
    ensures |merged| - |[x, x]| == -1
  {
    assert Elems([x, x]) == {x};
    SingleFact(merged, x);
  }

  /** The only duplicate-free list with a single element `x` is `[x]`. */
  lemma SingleFact<T>(r: seq<T>, x: T)
    requires NoDuplicates(r) && Elems(r) == {x}
    ensures r == [x]
  {
    DistinctCard(r);
    assert r[0] in Elems(r);
  }
}
