/**
 * The pagination bar (app/components/Pagination.tsx): the page count, the
 * window of at most five page buttons around the current page, when the
 * previous and next arrows are disabled, and the `page` parameter a click
 * writes into the query string.
 */
module Pagination {
  import opened Wrappers
  import opened Text

  /** `Math.ceil(total / limit)` for a positive page size. */
  function TotalPages(total: nat, limit: int): (r: nat)
    requires limit > 0
    ensures total <= r * limit
    ensures (r - 1) * limit < total
  {
    (total + limit - 1) / limit
  }

  /** The ceiling is unique: `TotalPages` is the least page count that holds every row. */
  lemma TotalPagesLeast(total: nat, limit: int, n: nat)
    requires limit > 0 && total <= n * limit
    ensures TotalPages(total, limit) <= n
  {
    var r := TotalPages(total, limit);
    if r > n {
      assert (r - 1) * limit >= n * limit by {
        MulMonotone(n, r - 1, limit);
      }
    }
  }

  lemma MulMonotone(a: int, b: int, c: int)
    requires a <= b && c > 0
    ensures a * c <= b * c
  {
  }

  /** No rows, no pages; one to `limit` rows, one page. */
  lemma TotalPagesSmall(total: nat, limit: int)
    requires limit > 0
    ensures TotalPages(total, limit) == 0 <==> total == 0
    ensures 0 < total <= limit ==> TotalPages(total, limit) == 1
  {
    if 0 < total <= limit {
      TotalPagesLeast(total, limit, 1);
    }
  }

  function Min(a: int, b: int): int {
    if a < b then a else b
  }

  /**
   * The page number of button `i` before the final `p < 1` guard: `i + 1`,
   * or with more than five pages a window starting two before the current
   * page, with a button that runs past the end moved to `i + totalPages - 4`.
   */
  function Unguarded(i: int, totalPages: int, currentPage: int): int {
    var p0 := i + 1;
    var p1 := if totalPages > 5 && currentPage > 3 then currentPage - 2 + i else p0;
    if totalPages > 5 && p1 > totalPages then i + (totalPages - 4) else p1
  }

  /** Button `i`'s page number, raised to 1 when the window would go below it. */
  function PageButton(i: int, totalPages: int, currentPage: int): (r: int)
    ensures r >= 1
  {
    var p := Unguarded(i, totalPages, currentPage);
    if p < 1 then 1 else p
  }

  /** The buttons, one per index below `Math.min(5, totalPages)`; each names an existing page, for any current page. */
  function PageButtons(totalPages: nat, currentPage: int): (r: seq<int>)
    ensures |r| == Min(5, totalPages)
    ensures forall i :: 0 <= i < |r| ==> 1 <= r[i] <= totalPages
  {
    ButtonsInRange(totalPages, currentPage);
    seq(Min(5, totalPages), i => PageButton(i, totalPages, currentPage))
  }

  /** There are no buttons exactly when there are no rows. */
  lemma NoButtonsWhenEmpty(total: nat, limit: int, currentPage: int)
    requires limit > 0
    ensures PageButtons(TotalPages(total, limit), currentPage) == [] <==> total == 0
  {
    TotalPagesSmall(total, limit);
  }

  /** With at most five pages the buttons are 1..totalPages, whatever the current page. */
  lemma FewPages(totalPages: nat, currentPage: int)
    requires totalPages <= 5
    ensures |PageButtons(totalPages, currentPage)| == totalPages
    ensures forall i :: 0 <= i < totalPages ==> PageButtons(totalPages, currentPage)[i] == i + 1
  {
  }

  /** With more than five pages and the current page among the first three, the buttons are 1..5. */
  lemma ManyPagesNearStart(totalPages: nat, currentPage: int)
    requires totalPages > 5 && currentPage <= 3
    ensures PageButtons(totalPages, currentPage) == [1, 2, 3, 4, 5]
  {
    var r := PageButtons(totalPages, currentPage);
    assert r[0] == 1 && r[1] == 2 && r[2] == 3 && r[3] == 4 && r[4] == 5;
  }

  /**
   * With more than five pages and the current page past the third, button
   * `i` is `currentPage - 2 + i`, unless that runs past the last page, when
   * it is `i + totalPages - 4`.
   */
  lemma ManyPagesWindow(totalPages: nat, currentPage: int, i: int)
    requires totalPages > 5 && currentPage > 3 && 0 <= i < 5
    ensures currentPage - 2 + i <= totalPages ==> PageButtons(totalPages, currentPage)[i] == currentPage - 2 + i
    ensures currentPage - 2 + i > totalPages ==> PageButtons(totalPages, currentPage)[i] == i + totalPages - 4
  {
  }

  /** The `p < 1` guard never fires: every unguarded page number is already at least 1. */
  lemma GuardNeverFires(totalPages: nat, currentPage: int, i: int)
    requires 0 <= i < Min(5, totalPages)
    ensures Unguarded(i, totalPages, currentPage) >= 1
    ensures PageButton(i, totalPages, currentPage) == Unguarded(i, totalPages, currentPage)
  {
  }

  lemma ButtonsInRange(totalPages: nat, currentPage: int)
    ensures forall i :: 0 <= i < Min(5, totalPages) ==> 1 <= PageButton(i, totalPages, currentPage) <= totalPages
  {
    forall i | 0 <= i < Min(5, totalPages) ensures PageButton(i, totalPages, currentPage) <= totalPages {
      GuardNeverFires(totalPages, currentPage, i);
    }
  }

  /**
   * The end clamp works per button, so pages can repeat: seven pages with the
   * seventh current give 5, 6, 7, 6, 7.
   */
  lemma RepeatedPagesExample()
    ensures PageButtons(7, 7) == [5, 6, 7, 6, 7]
  {
    var r := PageButtons(7, 7);
    assert r[0] == 5 && r[1] == 6 && r[2] == 7 && r[3] == 6 && r[4] == 7;
  }

  /** The previous arrow's `disabled`. */
  predicate PrevDisabled(currentPage: int) {
    currentPage == 1
  }

  /** The next arrow's `disabled`. */
  predicate NextDisabled(totalPages: int, currentPage: int) {
    currentPage == totalPages
  }

  /** From an existing page an enabled arrow leads to an existing page. */
  lemma ArrowsStayInRange(totalPages: nat, currentPage: int)
    requires 1 <= currentPage <= totalPages
    ensures !PrevDisabled(currentPage) ==> 1 <= currentPage - 1 <= totalPages
    ensures !NextDisabled(totalPages, currentPage) ==> 1 <= currentPage + 1 <= totalPages
    ensures PrevDisabled(currentPage) && NextDisabled(totalPages, currentPage) <==> totalPages == 1
  {
  }

  /**
   * With no rows there are no pages, and page 1 is not the last page, so the
   * next arrow stays enabled and leads to page 2.
   */
  lemma EmptyNextEnabled(limit: int)
    requires limit > 0
    ensures TotalPages(0, limit) == 0
    ensures PrevDisabled(1) && !NextDisabled(TotalPages(0, limit), 1)
  {
    TotalPagesSmall(0, limit);
  }

  /** `handlePageChange`: the query parameters with `page` set to the page number. */
  function SetPage(params: map<string, string>, page: int): (r: map<string, string>)
    ensures "page" in r && r["page"] == IntToDecimal(page)
    ensures forall k :: k != "page" ==> (k in r <==> k in params) && (k in params ==> r[k] == params[k])
  {
    params["page" := IntToDecimal(page)]
  }

  /** The page a click writes is the page the question list reads back. */
  lemma SetPageReadBack(params: map<string, string>, page: nat)
    ensures ParseInt(SetPage(params, page)["page"]) == Some(page)
  {
    ParsePadded(page, 0);
  }
}
