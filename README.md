# TodoTable: the table derivation and view state, in Dafny

This project models the core of the front end's `TodoTable` component
(`front-end/src/TodoTable.js`). The component fetches a list of todos
(`id`, `title`, `completed`, optional assigned `user`) and shows them in a
table the user can search, sort and page through. The model covers:

- **the derivation** (`filterAndSortData`): keep the todos whose lower-cased
  title or assigned user's name contains the lower-cased search term, then
  sort them with the comparator of the active column (`title`, `status` or
  `user`), signed by the direction. This is modelled as functions over
  sequences, with the sort as a stable insertion sort (ECMAScript 2019 and
  later require `Array.prototype.sort` to be stable);
- **paging**: the page window `slice(page * rowsPerPage, page * rowsPerPage + rowsPerPage)`
  and the padding count `emptyRows`;
- **the view state**: the five `useState` fields (`page`, `rowsPerPage`,
  `orderBy`, `order`, `searchTerm`) as the fields of class `TableState`.
  Its methods are the handlers `handleSort`, `handleChangePage` and
  `handleChangeRowsPerPage`, plus the search field's `setSearchTerm`. A
  `Render` method makes the component's three-way choice between the busy
  indicator, the error alert and the table.

Modules, one per concern: `TodoModel` (records), `Search` (lower-casing,
`includes`, the filter), `StableSort` (the generic stable sort and its
properties), `Ordering` (the comparator), `Paging` (slice and padding),
`TodoTable` (the derivation, the state class and rendering) and `Scenarios`
(a concrete collation and the table driven through worked examples).

`localeCompare` is a parameter `le`, a "may come before" relation on
strings. The sortedness results assume it is total and transitive
(`Ordering.Collation`). `toLowerCase` is modelled on the ASCII letters.

Clicking a column other than the active one always sets the direction to
ascending (front-end/src/TodoTable.js:111-112); the previous direction is not
kept.

## Model

| member | source | states |
|---|---|---|
| `Search.ContainsIffOccurs` | front-end/src/TodoTable.js:132-133 | `includes` as computed holds exactly when the term occurs at some position of the string |
| `Search.FirstCharAbsent` | front-end/src/TodoTable.js:132-133 | a string that lacks the term's first character does not include the term |
| `Search.Filter` | front-end/src/TodoTable.js:129-135 | the filter keeps only matching todos, each matching todo as often as it was fetched, and no others |
| `Search.FilterConcat` | front-end/src/TodoTable.js:129-135 | the filter keeps fetched order: the kept todos of `a + b` are those of `a` followed by those of `b` |
| `Search.FilterSingle` | front-end/src/TodoTable.js:129-135 | a single todo is kept exactly when it matches (with `FilterConcat`, this fixes the filter's output as the matching subsequence) |
| `Search.FilterKeepsExactlyMatching` | front-end/src/TodoTable.js:129-135 | a todo is kept iff it was fetched and the lower-cased term occurs in its lower-cased title or in its lower-cased user name ("" when unassigned) |
| `Search.FilterKeepsAllMatching` | front-end/src/TodoTable.js:129-135 | when every todo matches, the filter returns the list unchanged and in order |
| `Search.EmptyTermKeepsAll` | front-end/src/TodoTable.js:129-135 | an empty search term keeps every todo in order |
| `Search.FilterIdempotent` | front-end/src/TodoTable.js:129-135 | filtering twice with the same term equals filtering once |
| `Search.SearchIsCaseInsensitive` | front-end/src/TodoTable.js:130 | a term and its lower-cased form keep the same todos |
| `StableSort.Insert` | front-end/src/TodoTable.js:136 | inserting adds exactly one element to the multiset |
| `StableSort.Sort` | front-end/src/TodoTable.js:128-136 | the sort returns a permutation of its input |
| `StableSort.InsertNeighboursSorted` | front-end/src/TodoTable.js:136 | with a total comparator, inserting into a neighbour-sorted list keeps it neighbour-sorted |
| `StableSort.NeighboursSortedIsSorted` | front-end/src/TodoTable.js:136 | with a transitive comparator, neighbour-sortedness implies that every pair is in order |
| `StableSort.SortNeighboursSorted` | front-end/src/TodoTable.js:136 | with a total comparator, the sort's output is neighbour-sorted |
| `StableSort.SortSorted` | front-end/src/TodoTable.js:136-152 | with a consistent comparator, no element of the output is placed after one it should follow |
| `StableSort.SortOfSorted` | front-end/src/TodoTable.js:136 | sorting an already sorted list returns it unchanged |
| `StableSort.SortIdempotent` | front-end/src/TodoTable.js:136 | sorting twice equals sorting once |
| `StableSort.InsertKeepsClassOrder` | front-end/src/TodoTable.js:136 | insertion places the new element ahead of all elements that compare equal to it |
| `StableSort.SortIsStable` | front-end/src/TodoTable.js:136 | stability: for every value, the elements that compare equal to it leave the sort in the order they entered |
| `StableSort.KeepsOrderWhenAllEqual` | front-end/src/TodoTable.js:149-150 | a comparator that ranks every pair as equal leaves the order unchanged |
| `Ordering.DescNegates` | front-end/src/TodoTable.js:137 | on every column, "desc" negates the "asc" comparator |
| `Ordering.TitleOrder` | front-end/src/TodoTable.js:139-140 | by title, "asc" places a before b iff the collation does, and "desc" iff it places b before a |
| `Ordering.StatusOrder` | front-end/src/TodoTable.js:141-144 | by status, "asc" places a before b iff a is pending or b is completed, and "desc" iff a is completed or b is pending |
| `Ordering.UserOrder` | front-end/src/TodoTable.js:145-148 | by user, the order follows the collation of user names, with unassigned todos as "" |
| `Ordering.UnknownColumnOrder` | front-end/src/TodoTable.js:149-150 | any other column compares every pair as 0 |
| `Ordering.ComparatorIsTotalPreorder` | front-end/src/TodoTable.js:136-152 | under a collation, every column/direction comparator is total and transitive (status and unknown columns need no collation) |
| `Paging.PageRows` | front-end/src/TodoTable.js:237-238 | the shown rows are the contiguous window starting at `page * rowsPerPage`, at most `rowsPerPage` long; the window is empty when the start is past the end and full when `(page + 1) * rowsPerPage` rows exist |
| `Paging.EmptyRows` | front-end/src/TodoTable.js:177-181 | `emptyRows` lies in `[0, rowsPerPage]` and together with the shown rows it makes up exactly `rowsPerPage` |
| `TodoTable.FilterAndSortData` | front-end/src/TodoTable.js:125-153 | an absent `data` or `getTodos` gives []; otherwise the output holds each matching fetched todo as often as it was fetched, and nothing else |
| `TodoTable.RowsOrderedByTitle` | front-end/src/TodoTable.js:136-140 | rows sorted by title are in collation order for "asc" and in reverse order for "desc" |
| `TodoTable.RowsOrderedByUser` | front-end/src/TodoTable.js:145-148 | rows sorted by user are in collation order of user names for "asc" and in reverse order for "desc" |
| `TodoTable.RowsOrderedByStatus` | front-end/src/TodoTable.js:141-144 | "asc" shows every pending todo before every completed one; "desc" shows every completed todo before every pending one |
| `TodoTable.UnknownColumnKeepsFilteredOrder` | front-end/src/TodoTable.js:149-150 | an unknown sort column leaves the filtered todos in fetched order |
| `TodoTable.EqualRowsKeepFetchedOrder` | front-end/src/TodoTable.js:128-152 | todos that the active column ranks equal keep their fetched order |
| `TodoTable.TableState.constructor` | front-end/src/TodoTable.js:101-105 | the initial state is page 0, 5 rows per page, sorted by title ascending, with an empty search term |
| `TodoTable.TableState.HandleSort` | front-end/src/TodoTable.js:110-114 | the clicked column becomes active; the direction becomes "desc" iff that column was already active and ascending, and "asc" otherwise; nothing else changes |
| `TodoTable.TableState.HandleChangePage` | front-end/src/TodoTable.js:116-118 | the page becomes exactly the requested one; nothing else changes |
| `TodoTable.TableState.HandleChangeRowsPerPage` | front-end/src/TodoTable.js:120-123 | the page size becomes the selected option and the page resets to 0; nothing else changes |
| `TodoTable.TableState.SetSearchTerm` | front-end/src/TodoTable.js:194 | the search term is replaced and the page is kept |
| `TodoTable.TableState.Render` | front-end/src/TodoTable.js:155-181 | loading shows only the spinner; otherwise an error shows only its message; otherwise the table shows the current page of the derived rows, the total count for the pager and padding that fills the page; since the page size is one of 5, 10, 25, the body always holds a data row or the padding row (line 263) |
| `TodoTable.ClickActiveColumnTwice` | front-end/src/TodoTable.js:110-114 | two clicks on the active column restore the direction and change none of the five state fields |
| `Scenarios.CodePointTotal` | front-end/src/TodoTable.js:140 | code-point order ranks every pair of strings one way or the other |
| `Scenarios.CodePointTransitive` | front-end/src/TodoTable.js:140 | code-point order is transitive |
| `Scenarios.CodePointIsCollation` | front-end/src/TodoTable.js:140 | code-point order is a collation, so the assumption made about `localeCompare` can be met |
| `Scenarios.DefaultOrderScenario` | front-end/src/TodoTable.js:101-105 | in the initial state, "Buy milk" and "Walk dog" are shown in that order |
| `Scenarios.StatusTwiceScenario` | front-end/src/TodoTable.js:110-114 | sorting by status shows the pending todo first; a second click shows the completed todo first |
| `Scenarios.SearchUserScenario` | front-end/src/TodoTable.js:129-135 | the term "bob" keeps only the todo assigned to Bob |
| `Scenarios.FailedFetchScenario` | front-end/src/TodoTable.js:168-174 | a failed fetch renders its error message and no table |
| `Scenarios.SearchKeepsPageScenario` | front-end/src/TodoTable.js:237-238 | narrowing the search on page 1 keeps the page, which then shows no rows and 5 padding rows |

## Left out

- JSX rendering, MUI components, the theme and the padding row's height (front-end/src/TodoTable.js:48-98, 183-284). They are presentation only, so `View` records just which of the three outputs is shown and its data.
- The Apollo `useQuery` hook and its fetching (front-end/src/TodoTable.js:108). It is a foreign library, so `Render` takes its result as the input `QueryResult`.
- front-end/src/App.js (client construction, HTTP link, cache policy, logging). It configures a library and is not part of this model.
- The exact collation of `localeCompare`. It is locale data, so it is the parameter `le`. The sortedness lemmas require it to be a collation (total and transitive). For a relation that is not one, the model still returns one permutation, which a JavaScript engine need not match.
- Unicode case mapping in `toLowerCase`. Only ASCII A-Z are lower-cased; other characters are unchanged.
- `parseInt` of the selector's value (front-end/src/TodoTable.js:121). The handler receives the number, one of {5, 10, 25} (line 273).
- Null `title` or null user `name`. The query's fields are taken as strings; a user with the name "" behaves like an unassigned todo, as `|| ""` makes it.
- Non-mutation of the fetched list by the spread copy (front-end/src/TodoTable.js:128). Sequences are values in the model, so the fetched list cannot change and this holds by construction.
- That a stable sort's output is unique. The insertion sort stands for the engine's sort; any stable sort gives the same output under a consistent comparator, but the model does not prove this.
- React's scheduling of state updates. Each handler runs as one atomic step on the pre-event state, which is how the two `set` calls of `handleSort` behave.
