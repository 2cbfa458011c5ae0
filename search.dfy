/** The search box: a todo is kept when its title or its assigned user's name
    contains the search term, both sides lower-cased. */
module Search {
  import opened TodoModel

  /** `toLowerCase` on one character, for the ASCII letters A-Z. */
  function LowerChar(c: char): char {
    if 'A' <= c <= 'Z' then (c as int + 32) as char else c
  }

  /** `toLowerCase` on a string, character by character. */
  function Lower(s: string): string {
    seq(|s|, i requires 0 <= i < |s| => LowerChar(s[i]))
  }

  /** `s.includes(sub)`, computed by trying each start position in turn. */
  predicate Contains(s: string, sub: string)
    decreases |s|
  {
    sub <= s || (s != [] && Contains(s[1..], sub))
  }

  /** `sub` occurs in `s` starting at index `i`. */
  ghost predicate OccursAt(s: string, sub: string, i: int) {
    0 <= i && i + |sub| <= |s| && s[i..i + |sub|] == sub
  }

  /** The search predicate of the filter step. */
  predicate Matches(t: Todo, searchTerm: string) {
    var searchStr := Lower(searchTerm);
    Contains(Lower(t.title), searchStr) || Contains(Lower(UserName(t)), searchStr)
  }

  /** The `filter` step: the todos that match, in their original order. */
  function Filter(todos: seq<Todo>, searchTerm: string): (r: seq<Todo>)
    ensures |r| <= |todos|
    ensures forall t :: t in r ==> Matches(t, searchTerm)
    ensures forall t :: multiset(r)[t] == if Matches(t, searchTerm) then multiset(todos)[t] else 0
  {
    if todos == [] then []
    else
      assert todos == [todos[0]] + todos[1..];
      if Matches(todos[0], searchTerm) then [todos[0]] + Filter(todos[1..], searchTerm)
      else Filter(todos[1..], searchTerm)
  }

  /** An occurrence in the tail is an occurrence one further on in the whole, and back. */
  lemma OccursInTail(s: string, sub: string, i: nat)
    requires s != []
    ensures OccursAt(s[1..], sub, i) <==> OccursAt(s, sub, i + 1)
  {
    if i + |sub| <= |s| - 1 {
      assert s[1..][i..i + |sub|] == s[i + 1..i + 1 + |sub|];
    }
  }

  /** `includes` holds exactly when `sub` occurs somewhere in `s`. */
  lemma {:induction false} ContainsIffOccurs(s: string, sub: string)
    ensures Contains(s, sub) <==> exists i :: OccursAt(s, sub, i)
    decreases |s|
  {
    if sub <= s {
      assert OccursAt(s, sub, 0);
    } else if s != [] {
      ContainsIffOccurs(s[1..], sub);
      if Contains(s[1..], sub) {
        var i :| OccursAt(s[1..], sub, i);
        OccursInTail(s, sub, i);
      }
      if i :| OccursAt(s, sub, i) {
        assert i != 0;
        OccursInTail(s, sub, i - 1);
      }
    }
  }

  /** A string in which the first character of `sub` never appears does not contain `sub`. */
  lemma {:induction false} FirstCharAbsent(s: string, sub: string)
    requires sub != [] && sub[0] !in s
    ensures !Contains(s, sub)
    decreases |s|
  {
    if s != [] {
      assert s[0] != sub[0];
      FirstCharAbsent(s[1..], sub);
    }
  }

  /** The empty string is contained in every string. */
  lemma ContainsEmpty(s: string)
    ensures Contains(s, [])
  {
  }

  /** Lower-casing twice is lower-casing once. */
  lemma LowerIdempotent(s: string)
    ensures Lower(Lower(s)) == Lower(s)
  {
  }

  /** The search is case-insensitive in the term: a term and its lower-cased
      form keep the same todos. */
  lemma SearchIsCaseInsensitive(t: Todo, searchTerm: string)
    ensures Matches(t, searchTerm) == Matches(t, Lower(searchTerm))
  {
    LowerIdempotent(searchTerm);
  }

  /** A todo is kept exactly when the lower-cased term occurs in its lower-cased
      title or in its lower-cased user name ("" when unassigned). */
  lemma FilterKeepsExactlyMatching(todos: seq<Todo>, searchTerm: string, t: Todo)
    ensures t in Filter(todos, searchTerm) <==>
      t in todos &&
      ((exists i :: OccursAt(Lower(t.title), Lower(searchTerm), i)) ||
       (exists i :: OccursAt(Lower(UserName(t)), Lower(searchTerm), i)))
  {
    ContainsIffOccurs(Lower(t.title), Lower(searchTerm));
    ContainsIffOccurs(Lower(UserName(t)), Lower(searchTerm));
    var r := Filter(todos, searchTerm);
    assert t in r <==> multiset(r)[t] > 0;
    assert t in todos <==> multiset(todos)[t] > 0;
  }

  /** Filtering a list whose every todo matches changes nothing. */
  lemma {:induction false} FilterKeepsAllMatching(todos: seq<Todo>, searchTerm: string)
    requires forall t :: t in todos ==> Matches(t, searchTerm)
    ensures Filter(todos, searchTerm) == todos
  {
    if todos != [] {
      FilterKeepsAllMatching(todos[1..], searchTerm);
    }
  }

  /** An empty search term keeps every todo, in order. */
  lemma {:induction false} EmptyTermKeepsAll(todos: seq<Todo>)
    ensures Filter(todos, "") == todos
  {
    forall t | t in todos
      ensures Matches(t, "")
    {
      ContainsEmpty(Lower(t.title));
    }
    FilterKeepsAllMatching(todos, "");
  }

  /** The filter works element by element and keeps the fetched order: the
      kept todos of a concatenation are the kept todos of each part, in turn. */
  lemma {:induction false} FilterConcat(a: seq<Todo>, b: seq<Todo>, searchTerm: string)
    ensures Filter(a + b, searchTerm) == Filter(a, searchTerm) + Filter(b, searchTerm)
  {
    if a == [] {
      assert a + b == b;
    } else {
      assert (a + b)[0] == a[0];
      assert (a + b)[1..] == a[1..] + b;
      FilterConcat(a[1..], b, searchTerm);
    }
  }

  /** A single todo is kept exactly when it matches. */
  lemma FilterSingle(t: Todo, searchTerm: string)
    ensures Filter([t], searchTerm) == if Matches(t, searchTerm) then [t] else []
  {
    assert [t][1..] == [];
  }

  /** Filtering twice with the same term is filtering once. */
  lemma {:induction false} FilterIdempotent(todos: seq<Todo>, searchTerm: string)
    ensures Filter(Filter(todos, searchTerm), searchTerm) == Filter(todos, searchTerm)
  {
    FilterKeepsAllMatching(Filter(todos, searchTerm), searchTerm);
  }
}
