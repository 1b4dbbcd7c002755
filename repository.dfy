/**
 * The part of a TypeORM repository the services rely on beyond map lookups:
 * `find` lists the matching rows, here in ascending order of their ids.
 */
module Repository {

  /**
   * The members of `ids` that lie in [lo, hi), once each, in ascending order.
   * Auto-increment keys lie below the next id to be issued, so the range
   * [1, nextId) covers a whole table.
   */
  function AscendingIds(ids: set<int>, lo: int, hi: int): (r: seq<int>)
    ensures forall i :: 0 <= i < |r| ==> r[i] in ids && lo <= r[i] < hi
    ensures forall k :: k in ids && lo <= k < hi ==> k in r
    ensures forall i, j :: 0 <= i < j < |r| ==> r[i] < r[j]
    decreases hi - lo
  {
    if lo >= hi then []
    else if lo in ids then [lo] + AscendingIds(ids, lo + 1, hi)
    else AscendingIds(ids, lo + 1, hi)
  }
}
