/**
 Following a partial successor map. Parent links between Spaces and replacement
 links between Decisions are both such maps.
 */
module Chains {
  import opened Options

  /** Where `n` links lead from `x`; None once the chain has ended. */
  function Follow<T>(next: map<T, T>, x: T, n: nat): Option<T> {
    if n == 0 then Some(x)
    else if x !in next then None
    else Follow(next, next[x], n - 1)
  }

  ghost predicate Reaches<T>(next: map<T, T>, x: T, y: T) {
    exists n: nat :: Follow(next, x, n) == Some(y)
  }

  /** The chain from `x` is finite. */
  ghost predicate Ends<T>(next: map<T, T>, x: T) {
    exists n: nat :: Follow(next, x, n) == None
  }

  ghost predicate IsForest<T(!new)>(next: map<T, T>) {
    forall x :: Ends(next, x)
  }

  lemma {:induction false} FollowPlus<T>(next: map<T, T>, x: T, m: nat, n: nat)
    ensures Follow(next, x, m + n) ==
            match Follow(next, x, m) { case Some(y) => Follow(next, y, n) case None => None }
  {
    if m > 0 && x in next {
      FollowPlus(next, next[x], m - 1, n);
    }
  }

  lemma ReachesStep<T>(next: map<T, T>, x: T, y: T)
    requires x in next
    ensures Reaches(next, x, y) <==> x == y || Reaches(next, next[x], y)
  {
    if Reaches(next, x, y) && x != y {
      var n: nat :| Follow(next, x, n) == Some(y);
      assert Follow(next, next[x], n - 1) == Some(y);
    }
    if Reaches(next, next[x], y) {
      var n: nat :| Follow(next, next[x], n) == Some(y);
      assert Follow(next, x, n + 1) == Some(y);
    }
    assert Follow(next, x, 0) == Some(x);
  }

  lemma ReachesTransitive<T>(next: map<T, T>, x: T, y: T, z: T)
    requires Reaches(next, x, y) && Reaches(next, y, z)
    ensures Reaches(next, x, z)
  {
    var m: nat :| Follow(next, x, m) == Some(y);
    var n: nat :| Follow(next, y, n) == Some(z);
    FollowPlus(next, x, m, n);
  }

  /** A chain that meets a cycle never ends. */
  lemma {:induction false} CycleNeverEnds<T>(next: map<T, T>, x: T, y: T, n: nat)
    requires Reaches(next, x, y)
    requires n > 0 && Follow(next, y, n) == Some(y)
    ensures !Ends(next, x)
  {
    if Ends(next, x) {
      var m: nat :| Follow(next, x, m) == Some(y);
      var k: nat :| Follow(next, x, k) == None;
      FollowPlus(next, x, k, m);
      assert Follow(next, x, m + k) == None;
      FollowPlus(next, x, m, k);
      CycleOutlives(next, y, n, k);
    }
  }

  lemma {:induction false} CycleOutlives<T>(next: map<T, T>, y: T, n: nat, k: nat)
    requires n > 0 && Follow(next, y, n) == Some(y)
    ensures Follow(next, y, k).Some?
    decreases k
  {
    if k >= n {
      FollowPlus(next, y, n, k - n);
      CycleOutlives(next, y, n, k - n);
    } else {
      FollowPlus(next, y, k, n - k);
    }
  }

  lemma EndsStep<T>(next: map<T, T>, x: T)
    requires x in next
    ensures Ends(next, x) <==> Ends(next, next[x])
  {
    if Ends(next, x) {
      var n: nat :| Follow(next, x, n) == None;
      assert Follow(next, next[x], n - 1) == None;
    }
    if Ends(next, next[x]) {
      var n: nat :| Follow(next, next[x], n) == None;
      assert Follow(next, x, n + 1) == None;
    }
  }

  /** Inside a set that links never leave, no chain ends. */
  lemma {:induction false} ClosedNeverEnds<T>(next: map<T, T>, inside: set<T>, x: T, n: nat)
    requires x in inside && forall y :: y in inside ==> y in next && next[y] in inside
    ensures Follow(next, x, n).Some? && Follow(next, x, n).value in inside
    decreases n
  {
    if n > 0 {
      ClosedNeverEnds(next, inside, next[x], n - 1);
    }
  }

  lemma ClosedIsNotForest<T(!new)>(next: map<T, T>, inside: set<T>, x: T)
    requires x in inside && forall y :: y in inside ==> y in next && next[y] in inside
    ensures !IsForest(next)
  {
    if IsForest(next) {
      assert Ends(next, x);
      var n: nat :| Follow(next, x, n) == None;
      ClosedNeverEnds(next, inside, x, n);
    }
  }

  /** At least one link leads from `x` to `y`. */
  ghost predicate LeadsTo<T>(next: map<T, T>, x: T, y: T) {
    exists n: nat :: n > 0 && Follow(next, x, n) == Some(y)
  }

  /** On a finite map, the only way not to end is to run into a cycle. */
  lemma {:induction false} EndsOrRepeats<T(!new)>(next: map<T, T>, x: T, seen: set<T>) returns (y: T, n: nat)
    requires seen <= next.Keys
    requires forall s :: s in seen ==> LeadsTo(next, s, x)
    ensures Ends(next, x) || (n > 0 && Reaches(next, x, y) && Follow(next, y, n) == Some(y))
    decreases next.Keys - seen
  {
    y, n := x, 0;
    if x !in next {
      assert Follow(next, x, 1) == None;
    } else if x in seen {
      n :| n > 0 && Follow(next, x, n) == Some(x);
      assert Follow(next, x, 0) == Some(x);
    } else {
      var seenToo := seen + {x};
      forall s | s in seenToo
        ensures LeadsTo(next, s, next[x])
      {
        if s == x {
          assert Follow(next, s, 1) == Follow(next, next[x], 0);
        } else {
          var m: nat :| m > 0 && Follow(next, s, m) == Some(x);
          FollowPlus(next, s, m, 1);
          assert Follow(next, s, m + 1) == Follow(next, next[x], 0);
        }
      }
      y, n := EndsOrRepeats(next, next[x], seenToo);
      EndsStep(next, x);
      if !Ends(next, x) {
        assert Follow(next, x, 1) == Follow(next, next[x], 0);
        ReachesTransitive(next, x, next[x], y);
      }
    }
  }

  /** Two readings of "forest" agree: every chain ends, and no link path returns to its start. */
  lemma ForestIffNoCycle<T(!new)>(next: map<T, T>)
    ensures IsForest(next) <==> forall x :: !LeadsTo(next, x, x)
  {
    if IsForest(next) {
      forall x
        ensures !LeadsTo(next, x, x)
      {
        assert Ends(next, x);
        if LeadsTo(next, x, x) {
          var n: nat :| n > 0 && Follow(next, x, n) == Some(x);
          assert Follow(next, x, 0) == Some(x);
          CycleNeverEnds(next, x, x, n);
        }
      }
    } else {
      var x :| !Ends(next, x);
      var y, n := EndsOrRepeats(next, x, {});
      assert LeadsTo(next, y, y);
    }
  }

  /** Pointing `d` at a chain's end keeps every chain finite. */
  lemma RedirectKeepsForest<T(!new)>(next: map<T, T>, d: T, r: T)
    requires IsForest(next) && r !in next && r != d
    ensures IsForest(next[d := r])
  {
    var after := next[d := r];
    forall x
      ensures Ends(after, x)
    {
      assert Ends(next, x);
      var n: nat :| Follow(next, x, n) == None;
      RedirectEnds(next, d, r, x, n);
    }
  }

  lemma {:induction false} RedirectEnds<T>(next: map<T, T>, d: T, r: T, x: T, n: nat)
    requires r !in next && r != d
    requires Follow(next, x, n) == None
    ensures Ends(next[d := r], x)
  {
    var after := next[d := r];
    if x == d {
      assert Follow(after, r, 1) == None;
      assert Follow(after, d, 2) == None;
    } else if x in next {
      RedirectEnds(next, d, r, next[x], n - 1);
      EndsStep(after, x);
    } else {
      assert Follow(after, x, 1) == None;
    }
  }

  /** Dropping links keeps every chain finite. */
  lemma SubmapKeepsForest<T(!new)>(next: map<T, T>, fewer: map<T, T>)
    requires IsForest(next)
    requires forall k :: k in fewer ==> k in next && next[k] == fewer[k]
    ensures IsForest(fewer)
  {
    forall x
      ensures Ends(fewer, x)
    {
      assert Ends(next, x);
      var n: nat :| Follow(next, x, n) == None;
      SubmapEnds(next, fewer, x, n);
    }
  }

  lemma {:induction false} SubmapEnds<T>(next: map<T, T>, fewer: map<T, T>, x: T, n: nat)
    requires forall k :: k in fewer ==> k in next && next[k] == fewer[k]
    requires Follow(next, x, n) == None
    ensures Ends(fewer, x)
  {
    if x in fewer {
      SubmapEnds(next, fewer, fewer[x], n - 1);
      EndsStep(fewer, x);
    } else {
      assert Follow(fewer, x, 1) == None;
    }
  }
}
