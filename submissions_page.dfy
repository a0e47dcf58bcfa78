/**
 * The submissions page's one piece of state, the listing query it asks the
 * server for, and the three handlers the table calls to change it.
 */
module SubmissionsPage {
  import opened Store
  import SubmissionTable

  class PageState {
    var page: int
    var limit: int
    var sortBy: string
    var sortOrder: string

    /** The query the page sends. */
    function Current(): Query
      reads this
    {
      Query(page, limit, sortBy, sortOrder)
    }

    /** No handler writes `sortBy`: it stays 'createdAt'. */
    ghost predicate Valid()
      reads this
    {
      sortBy == "createdAt"
    }

    /** Page 1 of 10, newest first. */
    constructor ()
      ensures Valid()
      ensures Current() == Query(1, 10, "createdAt", "desc")
    {
      page, limit, sortBy, sortOrder := 1, 10, "createdAt", "desc";
    }

    /** `handlePageChange`: only the page changes. */
    method HandlePageChange(newPage: int)
      requires Valid()
      modifies this
      ensures Valid()
      ensures Current() == old(Current()).(page := newPage)
    {
      page := newPage;
    }

    /** `handleLimitChange`: a new page size, back to page 1. */
    method HandleLimitChange(newLimit: int)
      requires Valid()
      modifies this
      ensures Valid()
      ensures Current() == old(Current()).(limit := newLimit, page := 1)
    {
      limit := newLimit;
      page := 1;
    }

    /** `handleSortChange`: a new order, back to page 1. */
    method HandleSortChange(order: string)
      requires Valid()
      modifies this
      ensures Valid()
      ensures Current() == old(Current()).(sortOrder := order, page := 1)
    {
      sortOrder := order;
      page := 1;
    }

    /** The table's sort button: the order it hands over is the toggle of the
        current one, so the order sent is always 'asc' or 'desc' after it. */
    method ClickSort()
      requires Valid()
      modifies this
      ensures Valid()
      ensures Current() == old(Current()).(sortOrder := SubmissionTable.ToggleSort(old(sortOrder)), page := 1)
      ensures sortOrder != old(sortOrder) && (sortOrder == "asc" || sortOrder == "desc")
    {
      HandleSortChange(SubmissionTable.ToggleSort(sortOrder));
    }
  }
}
