/** A concrete collation (code-point order) and the table driven through
    worked examples on small lists of todos. */
module Scenarios {
  import opened TodoModel
  import opened Search
  import opened StableSort
  import opened Ordering
  import opened Paging
  import opened TodoTable

  /** Lexicographic order by character code: one collation `localeCompare` may follow. */
  predicate CodePointLe(a: string, b: string) {
    if a == [] then true
    else if b == [] then false
    else if a[0] != b[0] then a[0] < b[0]
    else CodePointLe(a[1..], b[1..])
  }

  lemma {:induction false} CodePointTotal(a: string, b: string)
    ensures CodePointLe(a, b) || CodePointLe(b, a)
  {
    if a != [] && b != [] && a[0] == b[0] {
      CodePointTotal(a[1..], b[1..]);
    }
  }

  lemma {:induction false} CodePointTransitive(a: string, b: string, c: string)
    requires CodePointLe(a, b) && CodePointLe(b, c)
    ensures CodePointLe(a, c)
  {
    if a != [] && b != [] && c != [] && a[0] == b[0] && b[0] == c[0] {
      CodePointTransitive(a[1..], b[1..], c[1..]);
    }
  }

  /** Code-point order meets what the table needs of a collation. */
  lemma CodePointIsCollation()
    ensures Collation(CodePointLe)
  {
    forall a, b
      ensures CodePointLe(a, b) || CodePointLe(b, a)
    {
      CodePointTotal(a, b);
    }
    forall a, b, c | CodePointLe(a, b) && CodePointLe(b, c)
      ensures CodePointLe(a, c)
    {
      CodePointTransitive(a, b, c);
    }
  }

  function BuyMilk(): Todo {
    Todo("1", "Buy milk", false, Some(User("u1", "Alice")))
  }

  function WalkDog(): Todo {
    Todo("2", "Walk dog", true, Some(User("u2", "Bob")))
  }

  /** A finished fetch that returned `todos`. */
  function Loaded(todos: seq<Todo>): QueryResult {
    QueryResult(false, None, Some(QueryData(Some(todos))))
  }

  /** The title column of the shown rows. */
  function Titles(rows: seq<Todo>): seq<string> {
    seq(|rows|, i requires 0 <= i < |rows| => rows[i].title)
  }

  /** Sorting two todos orders them by one comparison. */
  lemma SortTwo(a: Todo, b: Todo, cmp: (Todo, Todo) -> int)
    ensures Sort([a, b], cmp) == if cmp(a, b) <= 0 then [a, b] else [b, a]
  {
    assert [a, b][1..] == [b];
    assert Sort([b], cmp) == [b];
  }

  /** With an empty term, two fetched todos are sorted by one comparison. */
  lemma TwoRowsUnfiltered(a: Todo, b: Todo, orderBy: string, order: Direction, le: (string, string) -> bool)
    ensures FilterAndSortData(Some(QueryData(Some([a, b]))), "", orderBy, order, le)
         == if Compare(orderBy, order, le, a, b) <= 0 then [a, b] else [b, a]
  {
    EmptyTermKeepsAll([a, b]);
    SortTwo(a, b, Comparator(orderBy, order, le));
  }

  /** The first page of a list no longer than a page is the whole list. */
  lemma ShortListFitsFirstPage(rows: seq<Todo>, rowsPerPage: nat)
    requires |rows| <= rowsPerPage
    ensures PageRows(rows, 0, rowsPerPage) == rows
  {
  }

  lemma TitlesOfTwo(a: Todo, b: Todo)
    ensures Titles([a, b]) == [a.title, b.title]
  {
  }

  /** The titles shown for the two-todo list with no search term, on the first page of five. */
  lemma SampleTitles(orderBy: string, order: Direction)
    ensures Titles(PageRows(FilterAndSortData(Loaded([BuyMilk(), WalkDog()]).data, "", orderBy, order, CodePointLe), 0, 5))
         == if Compare(orderBy, order, CodePointLe, BuyMilk(), WalkDog()) <= 0
            then ["Buy milk", "Walk dog"] else ["Walk dog", "Buy milk"]
  {
    var a, b := BuyMilk(), WalkDog();
    TwoRowsUnfiltered(a, b, orderBy, order, CodePointLe);
    ShortListFitsFirstPage([a, b], 5);
    ShortListFitsFirstPage([b, a], 5);
    TitlesOfTwo(a, b);
    TitlesOfTwo(b, a);
  }

  lemma LowerSamples()
    ensures Lower("bob") == "bob" && Lower("Bob") == "bob"
    ensures Lower("Buy milk") == "buy milk" && Lower("Alice") == "alice"
  {
  }

  lemma BuyMilkMissesBob()
    ensures !Matches(BuyMilk(), "bob")
  {
    LowerSamples();
    FirstCharAbsent("alice", "bob");
    assert "buy milk"[1..] == "uy milk";
    FirstCharAbsent("uy milk", "bob");
    assert !("bob" <= "buy milk") by {
      assert "buy milk"[1] != "bob"[1];
    }
  }

  lemma WalkDogMatchesBob()
    ensures Matches(WalkDog(), "bob")
  {
    LowerSamples();
  }

  /** Filtering a non-matching todo followed by a matching one keeps the latter. */
  lemma FilterSecondOnly(a: Todo, b: Todo, searchTerm: string)
    requires !Matches(a, searchTerm) && Matches(b, searchTerm)
    ensures Filter([a, b], searchTerm) == [b]
  {
    assert [a, b][1..] == [b];
    assert [b][1..] == [];
  }

  /** Five non-matching todos followed by a matching one filter down to the last. */
  lemma FilterLastOfSix(a: Todo, b: Todo, searchTerm: string)
    requires !Matches(a, searchTerm) && Matches(b, searchTerm)
    ensures Filter([a, a, a, a, a, b], searchTerm) == [b]
  {
    var s := [a, a, a, a, a, b];
    FilterSecondOnly(a, b, searchTerm);
    assert s[4..] == [a, b];
    assert s[3..][1..] == s[4..];
    assert Filter(s[3..], searchTerm) == [b];
    assert s[2..][1..] == s[3..];
    assert Filter(s[2..], searchTerm) == [b];
    assert s[1..][1..] == s[2..];
    assert Filter(s[1..], searchTerm) == [b];
  }

  /** In the initial state the two todos are shown by title, ascending. */
  method DefaultOrderScenario() returns (titles: seq<string>)
    ensures titles == ["Buy milk", "Walk dog"]
  {
    var table := new TableState();
    var v := table.Render(Loaded([BuyMilk(), WalkDog()]), CodePointLe);
    SampleTitles("title", Asc);
    assert CodePointLe(BuyMilk().title, WalkDog().title);
    titles := Titles(v.rows);
  }

  /** Sorting by status puts the pending todo first; a second click on the
      same column puts the completed one first. */
  method StatusTwiceScenario() returns (first: seq<string>, second: seq<string>)
    ensures first == ["Buy milk", "Walk dog"]
    ensures second == ["Walk dog", "Buy milk"]
  {
    var table := new TableState();
    StatusOrder(CodePointLe, BuyMilk(), WalkDog());
    table.HandleSort("status");
    var v := table.Render(Loaded([BuyMilk(), WalkDog()]), CodePointLe);
    SampleTitles("status", Asc);
    first := Titles(v.rows);
    table.HandleSort("status");
    v := table.Render(Loaded([BuyMilk(), WalkDog()]), CodePointLe);
    SampleTitles("status", Desc);
    second := Titles(v.rows);
  }

  /** The term "bob" matches the todo assigned to Bob and nothing else. */
  method SearchUserScenario() returns (titles: seq<string>)
    ensures titles == ["Walk dog"]
  {
    var table := new TableState();
    table.SetSearchTerm("bob");
    var v := table.Render(Loaded([BuyMilk(), WalkDog()]), CodePointLe);
    BuyMilkMissesBob();
    WalkDogMatchesBob();
    FilterSecondOnly(BuyMilk(), WalkDog(), "bob");
    ShortListFitsFirstPage([WalkDog()], 5);
    titles := Titles(v.rows);
  }

  /** A failed fetch renders its message and no table. */
  method FailedFetchScenario() returns (v: View)
    ensures v == ErrorAlert("Network error")
  {
    var table := new TableState();
    v := table.Render(QueryResult(false, Some("Network error"), None), CodePointLe);
  }

  /** Narrowing the search while on the second page keeps that page, which
      then shows no rows at all and only padding. */
  method SearchKeepsPageScenario() returns (shownBefore: nat, shownAfter: nat, padding: int)
    ensures shownBefore == 1 && shownAfter == 0 && padding == 5
  {
    var six := [BuyMilk(), BuyMilk(), BuyMilk(), BuyMilk(), BuyMilk(), WalkDog()];
    var table := new TableState();
    table.HandleChangePage(1);
    var v := table.Render(Loaded(six), CodePointLe);
    EmptyTermKeepsAll(six);
    shownBefore := |v.rows|;
    table.SetSearchTerm("bob");
    v := table.Render(Loaded(six), CodePointLe);
    BuyMilkMissesBob();
    WalkDogMatchesBob();
    FilterLastOfSix(BuyMilk(), WalkDog(), "bob");
    shownAfter, padding := |v.rows|, v.emptyRows;
  }
}
