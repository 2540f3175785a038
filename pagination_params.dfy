/** PaginationParams<TCursor> (Application/Core/PaginationParams.cs): a cursor
    and a page size that never exceeds 50. */
module Pagination {
  import opened Wrappers

  const MaxPageSize: int := 50

  /** The setter's clamp: an upper bound only, so 0 and negative sizes are kept. */
  function ClampPageSize(value: int): (r: int)
    ensures r <= MaxPageSize
    ensures r == value || r == MaxPageSize
    ensures value <= MaxPageSize <==> r == value
  {
    if value > MaxPageSize then MaxPageSize else value
  }

  class PaginationParams<TCursor> {
    var cursor: Option<TCursor>
    var pageSize: int

    ghost predicate Valid()
      reads this
    {
      pageSize <= MaxPageSize
    }

    /** A fresh object: no cursor, and the default page size 3. */
    constructor ()
      ensures Valid()
      ensures cursor == None && pageSize == 3
    {
      cursor := None;
      pageSize := 3;
    }

    function PageSize(): (r: int)
      reads this
      requires Valid()
      ensures r <= MaxPageSize
    {
      pageSize
    }

    /** The `PageSize` setter. */
    method SetPageSize(value: int)
      requires Valid()
      modifies this
      ensures Valid()
      ensures pageSize == ClampPageSize(value)
      ensures cursor == old(cursor)
    {
      pageSize := if value > MaxPageSize then MaxPageSize else value;
    }

    /** The `Cursor` setter. */
    method SetCursor(value: Option<TCursor>)
      requires Valid()
      modifies this
      ensures Valid()
      ensures cursor == value && pageSize == old(pageSize)
    {
      cursor := value;
    }
  }
}
