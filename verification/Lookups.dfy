/** What `Array.prototype.find` returns, told apart from the functions that model it. */
module Lookups {
  import opened Options

  ghost predicate IsFirst<T>(items: seq<T>, matches: T -> bool, k: nat)
    requires k < |items|
  {
    matches(items[k]) && forall j :: 0 <= j < k ==> !matches(items[j])
  }

  /** The first item that matches; None only if there is none. */
  ghost predicate Finds<T(!new)>(items: seq<T>, matches: T -> bool, found: Option<T>) {
    match found
    case None => forall x :: x in items ==> !matches(x)
    case Some(x) => exists k :: 0 <= k < |items| && items[k] == x && IsFirst(items, matches, k)
  }

  lemma FindsHere<T(!new)>(items: seq<T>, matches: T -> bool)
    requires items != [] && matches(items[0])
    ensures Finds(items, matches, Some(items[0]))
  {
    assert IsFirst(items, matches, 0);
  }

  lemma FindsLater<T(!new)>(items: seq<T>, matches: T -> bool, found: Option<T>)
    requires items != [] && !matches(items[0]) && Finds(items[1..], matches, found)
    ensures Finds(items, matches, found)
  {
    if found.Some? {
      var k :| 0 <= k < |items| - 1 && items[1..][k] == found.value && IsFirst(items[1..], matches, k);
      assert forall j :: 0 < j < k + 1 ==> items[j] == items[1..][j - 1];
      assert IsFirst(items, matches, k + 1);
    }
  }

  /** There is one answer. */
  lemma FindsOne<T(!new)>(items: seq<T>, matches: T -> bool, a: Option<T>, b: Option<T>)
    requires Finds(items, matches, a) && Finds(items, matches, b)
    ensures a == b
  {
  }
}
