/** The bound on JSON payloads of agent actions, enforced by a recursion that shares one counter. */
module BoundedJson {
  import opened Text

  const MAX_DEPTH := 10
  const MAX_PROPERTIES := 500

  /** `plain` is false for an object whose prototype is not Object.prototype. */
  datatype Json =
    | Null
    | Bool(b: bool)
    | Str(s: string)
    | Number(finite: bool)
    | Arr(items: seq<Json>)
    | Obj(plain: bool, entries: seq<(string, Json)>)

  // ----- what the bound means -----

  function Children(value: Json): (children: seq<Json>)
    ensures forall i :: 0 <= i < |children| ==> children[i] < value
  {
    match value
    case Arr(items) => items
    case Obj(_, entries) => seq(|entries|, i requires 0 <= i < |entries| => entries[i].1)
    case _ => []
  }

  /** A value that the rules allow by itself, apart from its keys, its depth and its size. */
  predicate Acceptable(value: Json) {
    match value
    case Number(finite) => finite
    case Obj(plain, _) => plain
    case _ => true
  }

  /** The key of the `i`th entry of an object; array items have none. */
  predicate KeyOk(value: Json, i: nat)
    requires i < |Children(value)|
  {
    value.Obj? ==> NonBlank(value.entries[i].0, 200)
  }

  /** The `i`th child has a good key, and it is nested at most `depth` levels deep. */
  predicate ChildNested(value: Json, i: nat, depth: int)
    requires i < |Children(value)|
    decreases value, 0
  {
    KeyOk(value, i) && Nested(Children(value)[i], depth)
  }

  /** `value` and everything below it is acceptable and nested at most `depth` levels deep. */
  predicate Nested(value: Json, depth: int)
    decreases value, 2
  {
    depth >= 0 && Acceptable(value) && ChildrenNested(value, depth - 1, |Children(value)|)
  }

  predicate ChildrenNested(value: Json, depth: int, n: nat)
    requires n <= |Children(value)|
    decreases value, 1
  {
    forall i :: 0 <= i < n ==> ChildNested(value, i, depth)
  }

  /** The number of values contained in `value`, at any depth. */
  function Size(value: Json): nat
    decreases value, 1, 0
  {
    |Children(value)| + Sizes(value, |Children(value)|)
  }

  /** The sizes of the first `n` children together. */
  function Sizes(value: Json, n: nat): nat
    requires n <= |Children(value)|
    decreases value, 0, n
  {
    if n == 0 then 0 else Sizes(value, n - 1) + Size(Children(value)[n - 1])
  }

  lemma {:induction false} SizesGrow(value: Json, m: nat, n: nat)
    requires m <= n <= |Children(value)|
    ensures Sizes(value, m) <= Sizes(value, n)
    decreases n
  {
    if m < n {
      SizesGrow(value, m, n - 1);
    }
  }

  // ----- the recursion -----

  /** The counter that all recursive calls share, with a count of the calls themselves. */
  class Counter {
    var properties: nat
    ghost var visits: nat
    /** The values admitted by the size checks that passed. */
    ghost var admitted: nat

    constructor ()
      ensures properties == 0 && visits == 0 && admitted == 0
    {
      properties, visits, admitted := 0, 0, 0;
    }
  }

  /**
   `assertBoundedJson`; false is the thrown error. Accepting is exact, and accepting or not, the
   number of calls is bounded by the values that passed a size check.
   */
  method CheckBounded(value: Json, depth: nat, state: Counter) returns (ok: bool)
    requires depth <= MAX_DEPTH + 1 && state.properties == state.admitted <= MAX_PROPERTIES
    modifies state
    ensures ok <==> Nested(value, MAX_DEPTH - depth) && old(state.properties) + Size(value) <= MAX_PROPERTIES
    ensures ok ==> state.properties == old(state.properties) + Size(value) && state.admitted == state.properties
    ensures old(state.admitted) <= state.admitted <= MAX_PROPERTIES
    ensures old(state.visits) < state.visits <= old(state.visits) + 1 + state.admitted - old(state.admitted)
    decreases value, 1
  {
    state.visits := state.visits + 1;
    if depth > MAX_DEPTH {
      return false;
    }
    if !Acceptable(value) {
      return false;
    }
    if !value.Arr? && !value.Obj? {
      assert Children(value) == [] && ChildrenNested(value, MAX_DEPTH - depth - 1, 0);
      return true;
    }
    var children := |Children(value)|;
    state.properties := state.properties + children;
    if state.properties > MAX_PROPERTIES {
      return false;
    }
    state.admitted := state.admitted + children;
    ok := CheckChildren(value, depth, state);
    assert Nested(value, MAX_DEPTH - depth) <==> ChildrenNested(value, MAX_DEPTH - depth - 1, children);
  }

  /** The loop over the items of an array or the entries of an object, whose number is counted already. */
  method CheckChildren(value: Json, depth: nat, state: Counter) returns (ok: bool)
    requires depth <= MAX_DEPTH && state.properties == state.admitted <= MAX_PROPERTIES
    modifies state
    ensures var n := |Children(value)|;
            && (ok <==> ChildrenNested(value, MAX_DEPTH - depth - 1, n)
                        && old(state.properties) + Sizes(value, n) <= MAX_PROPERTIES)
            && (ok ==> state.properties == old(state.properties) + Sizes(value, n) == state.admitted)
            && old(state.admitted) <= state.admitted <= MAX_PROPERTIES
            && old(state.visits) <= state.visits <= old(state.visits) + n + state.admitted - old(state.admitted)
    decreases value, 0
  {
    var children := Children(value);
    for i := 0 to |children|
      invariant ChildrenNested(value, MAX_DEPTH - depth - 1, i)
      invariant state.properties == old(state.properties) + Sizes(value, i)
      invariant old(state.admitted) <= state.admitted == state.properties <= MAX_PROPERTIES
      invariant old(state.visits) <= state.visits <= old(state.visits) + i + state.admitted - old(state.admitted)
    {
      assert ChildNested(value, i, MAX_DEPTH - depth - 1) <==>
             KeyOk(value, i) && Nested(children[i], MAX_DEPTH - (depth + 1));
      SizesGrow(value, i + 1, |children|);
      if !KeyOk(value, i) {
        return false;
      }
      var accepted := CheckBounded(children[i], depth + 1, state);
      if !accepted {
        return false;
      }
    }
    return true;
  }

  /** The check as the plan validator calls it: at depth 0, with a fresh counter, at most 501 calls on any input. */
  method AssertBoundedJson(value: Json) returns (ok: bool, ghost visits: nat)
    ensures ok <==> Nested(value, MAX_DEPTH) && Size(value) <= MAX_PROPERTIES
    ensures 0 < visits <= 1 + MAX_PROPERTIES
  {
    var state := new Counter();
    ok := CheckBounded(value, 0, state);
    visits := state.visits;
  }
}
