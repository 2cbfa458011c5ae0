/** The TodoTable component: the derivation of the visible rows from the
    fetched todos and the view state, the five pieces of view state with the
    handlers that change them, and the three-way choice of what is rendered. */
module TodoTable {
  import opened TodoModel
  import opened Search
  import opened StableSort
  import opened Ordering
  import opened Paging

  /** The choices of the rows-per-page selector. */
  const ROWS_PER_PAGE_OPTIONS: set<nat> := {5, 10, 25}

  /** What the query hook reports: still loading, an error message, and the data. */
  datatype QueryResult = QueryResult(loading: bool, error: Option<string>, data: Option<QueryData>)

  /** What the component renders: a busy indicator, an error alert, or the
      table with its visible rows, its padding rows and the pager's row count. */
  datatype View = Spinner | ErrorAlert(message: string) | Table(rows: seq<Todo>, emptyRows: int, count: nat)

  /** The fetched todos; an absent `data` or `getTodos` gives none. */
  function Fetched(data: Option<QueryData>): seq<Todo> {
    if data.Some? && data.value.getTodos.Some? then data.value.getTodos.value else []
  }

  /** `filterAndSortData`: the matching todos of the fetched list, sorted by
      the active column and direction. */
  function FilterAndSortData(data: Option<QueryData>, searchTerm: string, orderBy: string,
                             order: Direction, le: (string, string) -> bool): (r: seq<Todo>)
    ensures data.None? || data.value.getTodos.None? ==> r == []
    ensures forall t :: multiset(r)[t] == if Matches(t, searchTerm) then multiset(Fetched(data))[t] else 0
  {
    if data.None? || data.value.getTodos.None? then []
    else Sort(Filter(data.value.getTodos.value, searchTerm), Comparator(orderBy, order, le))
  }

  /** Sorted by title, the rows follow the collation ("asc") or its reverse ("desc"). */
  lemma RowsOrderedByTitle(data: Option<QueryData>, searchTerm: string, order: Direction, le: (string, string) -> bool)
    requires Collation(le)
    ensures var r := FilterAndSortData(data, searchTerm, "title", order, le);
      forall i, j :: 0 <= i < j < |r| ==>
        if order == Asc then le(r[i].title, r[j].title) else le(r[j].title, r[i].title)
  {
    var r := FilterAndSortData(data, searchTerm, "title", order, le);
    var cmp := Comparator("title", order, le);
    if r != [] {
      ComparatorIsTotalPreorder("title", order, le);
      SortSorted(Filter(data.value.getTodos.value, searchTerm), cmp);
      forall i, j | 0 <= i < j < |r|
        ensures if order == Asc then le(r[i].title, r[j].title) else le(r[j].title, r[i].title)
      {
        assert cmp(r[i], r[j]) <= 0;
        TitleOrder(le, r[i], r[j]);
      }
    }
  }

  /** Sorted by user, the rows follow the collation of the user names
      ("" when unassigned), or its reverse. */
  lemma RowsOrderedByUser(data: Option<QueryData>, searchTerm: string, order: Direction, le: (string, string) -> bool)
    requires Collation(le)
    ensures var r := FilterAndSortData(data, searchTerm, "user", order, le);
      forall i, j :: 0 <= i < j < |r| ==>
        if order == Asc then le(UserName(r[i]), UserName(r[j])) else le(UserName(r[j]), UserName(r[i]))
  {
    var r := FilterAndSortData(data, searchTerm, "user", order, le);
    var cmp := Comparator("user", order, le);
    if r != [] {
      ComparatorIsTotalPreorder("user", order, le);
      SortSorted(Filter(data.value.getTodos.value, searchTerm), cmp);
      forall i, j | 0 <= i < j < |r|
        ensures if order == Asc then le(UserName(r[i]), UserName(r[j])) else le(UserName(r[j]), UserName(r[i]))
      {
        assert cmp(r[i], r[j]) <= 0;
        UserOrder(le, r[i], r[j]);
      }
    }
  }

  /** Sorted by status, "asc" shows every pending todo before every completed
      one and "desc" every completed one before every pending one. */
  lemma RowsOrderedByStatus(data: Option<QueryData>, searchTerm: string, order: Direction, le: (string, string) -> bool)
    ensures var r := FilterAndSortData(data, searchTerm, "status", order, le);
      forall i, j :: 0 <= i < j < |r| ==>
        if order == Asc then r[i].completed ==> r[j].completed else r[j].completed ==> r[i].completed
  {
    var r := FilterAndSortData(data, searchTerm, "status", order, le);
    var cmp := Comparator("status", order, le);
    if r != [] {
      ComparatorIsTotalPreorder("status", order, le);
      SortSorted(Filter(data.value.getTodos.value, searchTerm), cmp);
      forall i, j | 0 <= i < j < |r|
        ensures if order == Asc then r[i].completed ==> r[j].completed else r[j].completed ==> r[i].completed
      {
        assert cmp(r[i], r[j]) <= 0;
        StatusOrder(le, r[i], r[j]);
      }
    }
  }

  /** An unknown sort column leaves the filtered list in its fetched order. */
  lemma UnknownColumnKeepsFilteredOrder(data: Option<QueryData>, searchTerm: string, orderBy: string,
                                        order: Direction, le: (string, string) -> bool)
    requires orderBy != "title" && orderBy != "status" && orderBy != "user"
    ensures FilterAndSortData(data, searchTerm, orderBy, order, le) == Filter(Fetched(data), searchTerm)
  {
    if data.Some? && data.value.getTodos.Some? {
      KeepsOrderWhenAllEqual(Filter(data.value.getTodos.value, searchTerm), Comparator(orderBy, order, le));
    }
  }

  /** Todos that the active column ranks equal keep their fetched order. */
  lemma EqualRowsKeepFetchedOrder(data: Option<QueryData>, searchTerm: string, orderBy: string,
                                  order: Direction, le: (string, string) -> bool, y: Todo)
    requires Collation(le) || (orderBy != "title" && orderBy != "user")
    ensures var cmp := Comparator(orderBy, order, le);
      ClassOf(FilterAndSortData(data, searchTerm, orderBy, order, le), cmp, y)
        == ClassOf(Filter(Fetched(data), searchTerm), cmp, y)
  {
    if data.Some? && data.value.getTodos.Some? {
      ComparatorIsTotalPreorder(orderBy, order, le);
      SortIsStable(Filter(data.value.getTodos.value, searchTerm), Comparator(orderBy, order, le), y);
    }
  }

  /** The view state of one mounted table: the five `useState` fields. */
  class TableState {
    var page: nat
    var rowsPerPage: nat
    var orderBy: string
    var order: Direction
    var searchTerm: string

    /** The page size is always one the selector offers. */
    ghost predicate Valid()
      reads this
    {
      rowsPerPage in ROWS_PER_PAGE_OPTIONS
    }

    /** The initial state at mount. */
    constructor ()
      ensures Valid()
      ensures page == 0 && rowsPerPage == 5 && orderBy == "title" && order == Asc && searchTerm == ""
    {
      page := 0;
      rowsPerPage := 5;
      orderBy := "title";
      order := Asc;
      searchTerm := "";
    }

    /** A click on a column header: that column becomes active; the direction
        turns to "desc" only when the column was already active and ascending,
        and is "asc" otherwise. */
    method HandleSort(property: string)
      requires Valid()
      modifies this
      ensures Valid()
      ensures orderBy == property
      ensures order == Desc <==> old(orderBy) == property && old(order) == Asc
      ensures page == old(page) && rowsPerPage == old(rowsPerPage) && searchTerm == old(searchTerm)
    {
      var isAsc := orderBy == property && order == Asc;
      order := if isAsc then Desc else Asc;
      orderBy := property;
    }

    /** The pager moves to exactly the requested page. */
    method HandleChangePage(newPage: nat)
      requires Valid()
      modifies this
      ensures Valid()
      ensures page == newPage
      ensures rowsPerPage == old(rowsPerPage) && orderBy == old(orderBy) && order == old(order)
      ensures searchTerm == old(searchTerm)
    {
      page := newPage;
    }

    /** A new page size from the selector; the table returns to the first page. */
    method HandleChangeRowsPerPage(value: nat)
      requires Valid() && value in ROWS_PER_PAGE_OPTIONS
      modifies this
      ensures Valid()
      ensures rowsPerPage == value && page == 0
      ensures orderBy == old(orderBy) && order == old(order) && searchTerm == old(searchTerm)
    {
      rowsPerPage := value;
      page := 0;
    }

    /** Typing in the search field replaces the term and keeps the page. */
    method SetSearchTerm(term: string)
      requires Valid()
      modifies this
      ensures Valid()
      ensures searchTerm == term
      ensures page == old(page) && rowsPerPage == old(rowsPerPage) && orderBy == old(orderBy)
      ensures order == old(order)
    {
      searchTerm := term;
    }

    /** One render: the busy indicator while loading, else the error if there
        is one, else the current page of the derived rows with its padding; the
        table body always holds a data row or the padding row. */
    method Render(q: QueryResult, le: (string, string) -> bool) returns (v: View)
      requires Valid()
      ensures v.Spinner? <==> q.loading
      ensures v.ErrorAlert? <==> !q.loading && q.error.Some?
      ensures v.ErrorAlert? ==> v.message == q.error.value
      ensures v.Table? ==>
        var filtered := FilterAndSortData(q.data, searchTerm, orderBy, order, le);
        && v.count == |filtered|
        && v.rows == PageRows(filtered, page, rowsPerPage)
        && 0 <= v.emptyRows <= rowsPerPage
        && |v.rows| + v.emptyRows == rowsPerPage
      ensures v.Table? ==> v.rows != [] || v.emptyRows > 0
    {
      if q.loading {
        return Spinner;
      }
      if q.error.Some? {
        return ErrorAlert(q.error.value);
      }
      var filtered := FilterAndSortData(q.data, searchTerm, orderBy, order, le);
      var emptyRows := EmptyRows(filtered, page, rowsPerPage);
      v := Table(PageRows(filtered, page, rowsPerPage), emptyRows, |filtered|);
    }
  }

  /** Two clicks on the active column bring the direction back to where it was. */
  method ClickActiveColumnTwice(table: TableState)
    requires table.Valid()
    modifies table
    ensures table.Valid()
    ensures table.orderBy == old(table.orderBy) && table.order == old(table.order)
    ensures table.page == old(table.page) && table.rowsPerPage == old(table.rowsPerPage)
    ensures table.searchTerm == old(table.searchTerm)
  {
    var column := table.orderBy;
    table.HandleSort(column);
    table.HandleSort(column);
  }
}
