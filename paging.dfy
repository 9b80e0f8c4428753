/** Offset pagination as the list endpoints compute it: `skip = (page - 1) *
    limit` and `totalPages = Math.ceil(total / limit)`. */
module Paging {

  /** The number of records that precede page `page` (pages count from 1). */
  function Skip(page: int, limit: int): (r: int)
    ensures page >= 1 && limit >= 0 ==> r >= 0
    ensures page == 1 ==> r == 0
    ensures limit >= 1 ==> (r < 0 <==> page < 1)
  {
    (page - 1) * limit
  }

  /** `Math.ceil(total / limit)` for a positive limit: the fewest pages of
      `limit` records that hold `total` records. */
  function TotalPages(total: nat, limit: int): (r: nat)
    requires limit >= 1
    ensures r * limit >= total
    ensures r > 0 ==> (r - 1) * limit < total
    ensures total == 0 <==> r == 0
  {
    if total % limit == 0 then total / limit else total / limit + 1
  }

  /** With at least one record, the page numbered `TotalPages` starts inside
      the record range and ends at or after its end: the last page is never
      empty and no record lies beyond it. */
  lemma LastPageHoldsTheRest(total: nat, limit: int)
    requires limit >= 1 && total > 0
    ensures 0 <= Skip(TotalPages(total, limit), limit) < total
    ensures Skip(TotalPages(total, limit), limit) + limit >= total
  {
    var p := TotalPages(total, limit);
    assert Skip(p, limit) + limit == p * limit;
  }
}
