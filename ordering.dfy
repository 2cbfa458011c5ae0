/** The comparator the table passes to `sort`: keyed by the `orderBy` column
    and signed by the `order` direction. */
module Ordering {
  import opened TodoModel
  import opened StableSort

  /** What the table relies on from `localeCompare`: a collation of strings,
      given as "a may come before b", that is total and transitive. */
  ghost predicate Collation(le: (string, string) -> bool) {
    && (forall a, b :: le(a, b) || le(b, a))
    && (forall a, b, c :: le(a, b) && le(b, c) ==> le(a, c))
  }

  /** `a.localeCompare(b)` under the collation `le`: negative, zero or positive. */
  function LocaleCompare(le: (string, string) -> bool, a: string, b: string): int {
    if le(a, b) && le(b, a) then 0 else if le(a, b) then -1 else 1
  }

  /** The sort callback: `factor` is 1 for "asc" and -1 for "desc"; an unknown
      column compares every pair as equal. */
  function Compare(orderBy: string, order: Direction, le: (string, string) -> bool, a: Todo, b: Todo): int {
    var factor := if order == Asc then 1 else -1;
    match orderBy
    case "title" => factor * LocaleCompare(le, a.title, b.title)
    case "status" => factor * (if a.completed == b.completed then 0 else if a.completed then 1 else -1)
    case "user" => factor * LocaleCompare(le, UserName(a), UserName(b))
    case _ => 0
  }

  /** `Compare` as the callback value handed to `sort`. */
  function Comparator(orderBy: string, order: Direction, le: (string, string) -> bool): (Todo, Todo) -> int {
    (a, b) => Compare(orderBy, order, le, a, b)
  }

  /** "desc" negates the "asc" comparator on every column. */
  lemma DescNegates(orderBy: string, le: (string, string) -> bool, a: Todo, b: Todo)
    ensures Compare(orderBy, Desc, le, a, b) == -Compare(orderBy, Asc, le, a, b)
  {
  }

  /** By title: ascending follows the collation, descending reverses it. */
  lemma TitleOrder(le: (string, string) -> bool, a: Todo, b: Todo)
    requires Collation(le)
    ensures Compare("title", Asc, le, a, b) <= 0 <==> le(a.title, b.title)
    ensures Compare("title", Desc, le, a, b) <= 0 <==> le(b.title, a.title)
  {
  }

  /** By user: as by title, on the user name with "" for unassigned todos. */
  lemma UserOrder(le: (string, string) -> bool, a: Todo, b: Todo)
    requires Collation(le)
    ensures Compare("user", Asc, le, a, b) <= 0 <==> le(UserName(a), UserName(b))
    ensures Compare("user", Desc, le, a, b) <= 0 <==> le(UserName(b), UserName(a))
  {
  }

  /** By status: ascending puts pending before completed, descending the reverse. */
  lemma StatusOrder(le: (string, string) -> bool, a: Todo, b: Todo)
    ensures Compare("status", Asc, le, a, b) <= 0 <==> !a.completed || b.completed
    ensures Compare("status", Desc, le, a, b) <= 0 <==> a.completed || !b.completed
  {
  }

  /** Any other column makes every pair equal. */
  lemma UnknownColumnOrder(orderBy: string, order: Direction, le: (string, string) -> bool, a: Todo, b: Todo)
    requires orderBy != "title" && orderBy != "status" && orderBy != "user"
    ensures Compare(orderBy, order, le, a, b) == 0
  {
  }

  /** Under a collation, the comparator of every column and direction is a
      consistent one, so `sort` is well defined; the status column and unknown
      columns need no collation. */
  lemma ComparatorIsTotalPreorder(orderBy: string, order: Direction, le: (string, string) -> bool)
    requires Collation(le) || (orderBy != "title" && orderBy != "user")
    ensures TotalPreorder(Comparator(orderBy, order, le))
  {
    var cmp := Comparator(orderBy, order, le);
    forall a, b
      ensures cmp(a, b) <= 0 || cmp(b, a) <= 0
    {
      if orderBy == "title" {
        TitleOrder(le, a, b);
      } else if orderBy == "user" {
        UserOrder(le, a, b);
      } else if orderBy == "status" {
        StatusOrder(le, a, b);
      }
    }
    forall a, b, c | cmp(a, b) <= 0 && cmp(b, c) <= 0
      ensures cmp(a, c) <= 0
    {
      if orderBy == "title" {
        TitleOrder(le, a, b); TitleOrder(le, b, c); TitleOrder(le, a, c);
      } else if orderBy == "user" {
        UserOrder(le, a, b); UserOrder(le, b, c); UserOrder(le, a, c);
      } else if orderBy == "status" {
        StatusOrder(le, a, b); StatusOrder(le, b, c); StatusOrder(le, a, c);
      }
    }
  }
}
