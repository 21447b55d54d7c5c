/** The bound on JSON payloads, told from the places in a value instead of by recursion. */
module BoundedPaths {
  import opened Options
  import opened Text
  import opened BoundedJson

  /** The value found by following item and entry numbers; None where the path leads nowhere. */
  function Below(value: Json, path: seq<nat>): Option<Json> {
    if path == [] then Some(value)
    else match value
      case Arr(items) => if path[0] < |items| then Below(items[path[0]], path[1..]) else None
      case Obj(_, entries) => if path[0] < |entries| then Below(entries[path[0]].1, path[1..]) else None
      case _ => None
  }

  /** What is asked at every place: a number is finite, an object plain, and its keys filled. */
  ghost predicate Proper(v: Json) {
    && (v.Number? ==> v.finite)
    && (v.Obj? ==> v.plain && forall i :: 0 <= i < |v.entries| ==> Filled(v.entries[i].0, 200))
  }

  ghost predicate ProperAt(value: Json, depth: int, path: seq<nat>) {
    Below(value, path).Some? ==> |path| <= depth && Proper(Below(value, path).value)
  }

  ghost predicate ProperEverywhere(value: Json, depth: int) {
    forall path :: ProperAt(value, depth, path)
  }

  lemma BelowChild(value: Json, i: nat, path: seq<nat>)
    requires i < |Children(value)|
    ensures Below(value, [i] + path) == Below(Children(value)[i], path)
  {
    assert ([i] + path)[1..] == path;
  }

  lemma BelowSplits(value: Json, path: seq<nat>)
    requires path != [] && Below(value, path).Some?
    ensures path[0] < |Children(value)| && Below(value, path) == Below(Children(value)[path[0]], path[1..])
  {
  }

  lemma ProperIff(value: Json)
    ensures Proper(value) <==> Acceptable(value) && forall i :: 0 <= i < |Children(value)| ==> KeyOk(value, i)
  {
    if value.Obj? {
      forall i | 0 <= i < |value.entries|
        ensures KeyOk(value, i) <==> Filled(value.entries[i].0, 200)
      {
        NonBlankMeans(value.entries[i].0, 200);
      }
    }
  }

  lemma ProperBelowChild(value: Json, depth: int, i: nat)
    requires i < |Children(value)| && ProperEverywhere(value, depth)
    ensures ProperEverywhere(Children(value)[i], depth - 1)
  {
    var child, rest := Children(value)[i], depth - 1;
    forall path
      ensures ProperAt(child, rest, path)
    {
      BelowChild(value, i, path);
      assert ProperAt(value, depth, [i] + path);
    }
  }

  lemma ProperFromChildren(value: Json, depth: int)
    requires depth >= 0 && Proper(value)
    requires forall i :: 0 <= i < |Children(value)| ==> ProperEverywhere(Children(value)[i], depth - 1)
    ensures ProperEverywhere(value, depth)
  {
    forall path
      ensures ProperAt(value, depth, path)
    {
      if path != [] && Below(value, path).Some? {
        BelowSplits(value, path);
        assert ProperAt(Children(value)[path[0]], depth - 1, path[1..]);
      }
    }
  }

  lemma EachChildNested(value: Json, depth: int)
    ensures ChildrenNested(value, depth, |Children(value)|) <==>
            forall i :: 0 <= i < |Children(value)| ==> KeyOk(value, i) && Nested(Children(value)[i], depth)
  {
    var n := |Children(value)|;
    forall i: nat | i < n
      ensures ChildNested(value, i, depth) <==> KeyOk(value, i) && Nested(Children(value)[i], depth)
    {
    }
    if forall i :: 0 <= i < n ==> KeyOk(value, i) && Nested(Children(value)[i], depth) {
      assert forall i :: 0 <= i < n ==> ChildNested(value, i, depth);
    }
    if ChildrenNested(value, depth, n) {
      assert forall i :: 0 <= i < n ==> ChildNested(value, i, depth);
    }
  }

  lemma NestedByChildren(value: Json, depth: int)
    ensures Nested(value, depth) <==>
            && depth >= 0 && Proper(value)
            && forall i :: 0 <= i < |Children(value)| ==> Nested(Children(value)[i], depth - 1)
  {
    ProperIff(value);
    EachChildNested(value, depth - 1);
  }

  /** The recursion asks neither more nor less than that every place be proper and no path too long. */
  lemma {:induction false} NestedIff(value: Json, depth: int)
    ensures Nested(value, depth) <==> ProperEverywhere(value, depth)
    decreases value
  {
    var children := Children(value);
    NestedByChildren(value, depth);
    forall i | 0 <= i < |children|
      ensures Nested(children[i], depth - 1) <==> ProperEverywhere(children[i], depth - 1)
    {
      NestedIff(children[i], depth - 1);
    }
    if ProperEverywhere(value, depth) {
      assert ProperAt(value, depth, []);
      forall i | 0 <= i < |children|
        ensures ProperEverywhere(children[i], depth - 1)
      {
        ProperBelowChild(value, depth, i);
      }
    }
    if Nested(value, depth) {
      ProperFromChildren(value, depth);
    }
  }

  // ----- the size -----

  function Under(i: nat, paths: seq<seq<nat>>): seq<seq<nat>> {
    seq(|paths|, k requires 0 <= k < |paths| => [i] + paths[k])
  }

  ghost predicate NoneTwice(paths: seq<seq<nat>>) {
    forall i, j :: 0 <= i < j < |paths| ==> paths[i] != paths[j]
  }

  /** `paths` names every place strictly below `value` once. */
  ghost predicate Places(value: Json, paths: seq<seq<nat>>) {
    NoneTwice(paths) && forall path :: path in paths <==> path != [] && Below(value, path).Some?
  }

  /** `paths` names every place in the first `n` children once. */
  ghost predicate PlacesBelow(value: Json, n: nat, paths: seq<seq<nat>>) {
    NoneTwice(paths) && forall path :: path in paths <==> path != [] && path[0] < n && Below(value, path).Some?
  }

  lemma PlacesUnder(value: Json, i: nat, paths: seq<seq<nat>>)
    requires i < |Children(value)| && Places(Children(value)[i], paths)
    ensures NoneTwice([[i]] + Under(i, paths))
    ensures forall path :: path in [[i]] + Under(i, paths) <==>
              path != [] && path[0] == i && Below(value, path).Some?
  {
    var all := [[i]] + Under(i, paths);
    forall k, m | 0 <= k < m < |all|
      ensures all[k] != all[m]
    {
      assert all[m] == [i] + paths[m - 1] && all[m][1..] == paths[m - 1];
      assert paths[m - 1] in paths;
      if k > 0 {
        assert all[k] == [i] + paths[k - 1] && all[k][1..] == paths[k - 1];
      }
    }
    forall path
      ensures path in all <==> path != [] && path[0] == i && Below(value, path).Some?
    {
      if path != [] && path[0] == i {
        BelowChild(value, i, path[1..]);
        assert path == [i] + path[1..];
        if Below(value, path).Some? && path[1..] != [] {
          var k :| 0 <= k < |paths| && paths[k] == path[1..];
          assert all[k + 1] == path;
        } else if path[1..] == [] {
          assert all[0] == path;
        }
      }
      if path in all {
        var k :| 0 <= k < |all| && all[k] == path;
        if k > 0 {
          assert path == [i] + paths[k - 1] && paths[k - 1] in paths;
          assert path[1..] == paths[k - 1];
        }
      }
    }
  }

  lemma Disjoint(before: seq<seq<nat>>, more: seq<seq<nat>>, i: nat)
    requires NoneTwice(before) && NoneTwice(more)
    requires forall path :: path in before ==> path != [] && path[0] < i
    requires forall path :: path in more ==> path != [] && path[0] == i
    ensures NoneTwice(before + more)
  {
    var all := before + more;
    forall k, m | 0 <= k < m < |all|
      ensures all[k] != all[m]
    {
      if m >= |before| {
        assert all[m] == more[m - |before|] && all[m] in more;
        if k < |before| {
          assert all[k] in before;
        }
      }
    }
  }

  lemma {:induction false} PlacesOfChildren(value: Json, n: nat) returns (paths: seq<seq<nat>>)
    requires n <= |Children(value)|
    ensures PlacesBelow(value, n, paths) && |paths| == n + Sizes(value, n)
    decreases value, 0, n
  {
    paths := [];
    if n > 0 {
      var before := PlacesOfChildren(value, n - 1);
      var inner := PlacesOf(Children(value)[n - 1]);
      PlacesUnder(value, n - 1, inner);
      var more := [[n - 1]] + Under(n - 1, inner);
      Disjoint(before, more, n - 1);
      paths := before + more;
    }
  }

  /** The size that is bounded is the number of places below the value. */
  lemma {:induction false} PlacesOf(value: Json) returns (paths: seq<seq<nat>>)
    ensures Places(value, paths) && |paths| == Size(value)
    decreases value, 1, 0
  {
    paths := PlacesOfChildren(value, |Children(value)|);
    forall path | path != [] && Below(value, path).Some?
      ensures path[0] < |Children(value)|
    {
      BelowSplits(value, path);
    }
  }

  lemma {:induction false} CountOnce(paths: seq<seq<nat>>)
    requires NoneTwice(paths)
    ensures |set path | path in paths| == |paths|
  {
    if paths != [] {
      var n := |paths| - 1;
      CountOnce(paths[..n]);
      assert (set path | path in paths) == (set path | path in paths[..n]) + {paths[n]};
    }
  }

  /** The bound, without recursion or counter: at most 500 places, none deeper than 10, all proper. */
  lemma BoundedMeans(value: Json)
    ensures Nested(value, MAX_DEPTH) && Size(value) <= MAX_PROPERTIES <==>
            ProperEverywhere(value, 10) && exists paths :: Places(value, paths) && |paths| <= 500
  {
    NestedIff(value, MAX_DEPTH);
    var all := PlacesOf(value);
    CountOnce(all);
    forall paths | Places(value, paths)
      ensures |paths| == |all|
    {
      CountOnce(paths);
      assert (set path | path in paths) == (set path | path in all);
    }
  }
}
