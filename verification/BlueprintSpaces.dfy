/**
 The Space list of a collective blueprint: the validator's nested parent walk and the
 repeated backward sweep that turns the list into directory Spaces.
 */
module BlueprintSpaces {
  import opened Options
  import opened Text
  import opened Chains

  datatype Space = Space(key: string, name: string, description: string, parentKey: Option<string>)

  datatype DirectorySpace = DirectorySpace(id: string, parentSpaceId: string, name: string)

  /** Array.prototype.find by key. */
  function Find(spaces: seq<Space>, key: string): (r: Option<Space>)
    ensures r.Some? ==> r.value in spaces && r.value.key == key
  {
    if spaces == [] then None
    else if spaces[0].key == key then Some(spaces[0])
    else Find(spaces[1..], key)
  }

  function Keys(spaces: seq<Space>): set<string> {
    set s | s in spaces :: s.key
  }

  predicate UniqueKeys(spaces: seq<Space>) {
    forall i, j :: 0 <= i < j < |spaces| ==> spaces[i].key != spaces[j].key
  }

  /** From the key of a Space to the key of its parent. */
  function ParentMap(spaces: seq<Space>): map<string, string> {
    map key | key in Keys(spaces) && Find(spaces, key).Some? && Find(spaces, key).value.parentKey.Some?
      :: Find(spaces, key).value.parentKey.value
  }

  predicate ParentsExist(spaces: seq<Space>) {
    forall s :: s in spaces && s.parentKey.Some? ==> s.parentKey.value in Keys(spaces)
  }

  /** Every named parent is in the list, and following parents always arrives at a top-level Space. */
  ghost predicate Hierarchy(spaces: seq<Space>) {
    ParentsExist(spaces) && IsForest(ParentMap(spaces))
  }

  lemma FindIn(spaces: seq<Space>, s: Space)
    requires UniqueKeys(spaces) && s in spaces
    ensures Find(spaces, s.key) == Some(s)
  {
  }

  // ----- the validator -----

  /** The walk from `start`: true iff it arrives at a top-level Space without meeting a key twice. */
  method WalkParents(spaces: seq<Space>, start: Space) returns (ok: bool)
    requires Find(spaces, start.key) == Some(start)
    ensures ok <==> Ends(ParentMap(spaces), start.key)
  {
    ghost var next := ParentMap(spaces);
    ghost var universe := next.Keys + next.Values + {start.key};
    var visited := {start.key};
    var parent := start.parentKey;
    ghost var last, steps := start.key, 0;
    while parent.Some?
      invariant Follow(next, start.key, steps) == Some(last)
      invariant parent == (if last in next then Some(next[last]) else None)
      invariant last in visited && visited <= universe
      invariant forall v :: v in visited ==> v == last || LeadsTo(next, v, last)
      decreases universe - visited
    {
      assert last in next;
      StepFrom(next, visited, last);
      FollowPlus(next, start.key, steps, 1);
      assert Follow(next, last, 1) == Follow(next, next[last], 0);
      if parent.value in visited {
        assert LeadsTo(next, parent.value, parent.value);
        ghost var n: nat :| n > 0 && Follow(next, parent.value, n) == parent;
        CycleNeverEnds(next, start.key, parent.value, n);
        return false;
      }
      visited := visited + {parent.value};
      last, steps := parent.value, steps + 1;
      var found := Find(spaces, parent.value);
      parent := if found.Some? then found.value.parentKey else None;
    }
    assert Follow(next, last, 1) == None;
    FollowPlus(next, start.key, steps, 1);
    return true;
  }

  lemma StepFrom(next: map<string, string>, visited: set<string>, last: string)
    requires last in next
    requires forall v :: v in visited ==> v == last || LeadsTo(next, v, last)
    ensures forall v :: v in visited ==> LeadsTo(next, v, next[last])
  {
    forall v | v in visited
      ensures LeadsTo(next, v, next[last])
    {
      assert Follow(next, last, 1) == Follow(next, next[last], 0);
      if v != last {
        var n: nat :| n > 0 && Follow(next, v, n) == Some(last);
        FollowPlus(next, v, n, 1);
      }
    }
  }

  /** The duplicate-key check followed by the nested walk; any refusal is the source's thrown error. */
  method CheckSpaces(spaces: seq<Space>) returns (ok: bool)
    ensures ok <==> UniqueKeys(spaces) && Hierarchy(spaces)
  {
    if !UniqueKeys(spaces) {
      return false;
    }
    var spaceKeys := Keys(spaces);
    for i := 0 to |spaces|
      invariant forall j :: 0 <= j < i ==> spaces[j].parentKey.Some? ==> spaces[j].parentKey.value in spaceKeys
      invariant forall j :: 0 <= j < i ==> Ends(ParentMap(spaces), spaces[j].key)
    {
      var space := spaces[i];
      FindIn(spaces, space);
      if space.parentKey.Some? && (space.parentKey.value !in spaceKeys || space.parentKey.value == space.key) {
        if space.parentKey.value == space.key {
          SelfParentNeverEnds(spaces, space);
        }
        return false;
      }
      var finite := WalkParents(spaces, space);
      if !finite {
        return false;
      }
    }
    forall key
      ensures Ends(ParentMap(spaces), key)
    {
      if key !in Keys(spaces) {
        assert Follow(ParentMap(spaces), key, 1) == None;
      }
    }
    return true;
  }

  lemma SelfParentNeverEnds(spaces: seq<Space>, space: Space)
    requires Find(spaces, space.key) == Some(space) && space.parentKey == Some(space.key)
    ensures !Ends(ParentMap(spaces), space.key)
  {
    var next := ParentMap(spaces);
    assert Follow(next, space.key, 0) == Some(space.key) == Follow(next, space.key, 1);
    CycleNeverEnds(next, space.key, space.key, 1);
  }

  // ----- the sweep -----

  /** The id under which a Space's parent is created: the Guild's root Space or an already created Space. */
  function ParentId(space: Space, rootSpaceId: string, ids: map<string, string>): Option<string> {
    match space.parentKey
    case None => Some(rootSpaceId)
    case Some(p) => if p in ids then Some(ids[p]) else None
  }

  ghost predicate EarlierKey(order: seq<Space>, i: nat, key: string)
    requires i <= |order|
  {
    exists j :: 0 <= j < i && order[j].key == key
  }

  /** A list in which every Space stands after its parent. */
  ghost predicate ParentsFirst(order: seq<Space>) {
    forall i :: 0 <= i < |order| && order[i].parentKey.Some? ==> EarlierKey(order, i, order[i].parentKey.value)
  }

  /**
   `placed` holds the Spaces of `order`, in that order, each under its own parent, which is
   the root Space or stands earlier in the list.
   */
  ghost predicate PlacedAs(order: seq<Space>, rootSpaceId: string, ids: map<string, string>,
                           placed: seq<DirectorySpace>) {
    && |placed| == |order|
    && ids.Keys == Keys(order)
    && (forall i :: 0 <= i < |order| ==>
          && placed[i].id == ids[order[i].key]
          && placed[i].name == order[i].name
          && ParentId(order[i], rootSpaceId, ids) == Some(placed[i].parentSpaceId))
    && ParentsFirst(order)
  }

  /** `order` and `pending` share out the list: every Space is in exactly one of them, once. */
  ghost predicate Split(spaces: seq<Space>, order: seq<Space>, pending: seq<Space>) {
    && (forall s :: s in spaces <==> s in order || s in pending)
    && UniqueKeys(order) && UniqueKeys(pending)
    && Keys(order) !! Keys(pending)
  }

  lemma SplitMove(spaces: seq<Space>, order: seq<Space>, pending: seq<Space>, i: nat)
    requires Split(spaces, order, pending) && i < |pending|
    ensures Split(spaces, order + [pending[i]], pending[..i] + pending[i + 1..])
    ensures Keys(order + [pending[i]]) == Keys(order) + {pending[i].key}
  {
    var rest, space := pending[..i] + pending[i + 1..], pending[i];
    RestOf(pending, i);
    assert Keys(rest) <= Keys(pending);
    assert space.key in Keys(pending);
    assert forall s :: s in order + [space] <==> s in order || s == space;
    forall j | 0 <= j < |order|
      ensures order[j].key != space.key
    {
      assert order[j].key in Keys(order);
    }
  }

  lemma RestOf(pending: seq<Space>, i: nat)
    requires UniqueKeys(pending) && i < |pending|
    ensures var rest := pending[..i] + pending[i + 1..];
            && UniqueKeys(rest)
            && (forall s :: s in rest ==> s in pending && s.key != pending[i].key)
            && (forall s :: s in pending ==> s == pending[i] || s in rest)
  {
  }

  /** When a whole pass places nothing, some parent is missing or some chain of parents is endless. */
  lemma Stuck(spaces: seq<Space>, order: seq<Space>, pending: seq<Space>, rootSpaceId: string,
              ids: map<string, string>)
    requires UniqueKeys(spaces) && Split(spaces, order, pending) && pending != []
    requires ids.Keys == Keys(order)
    requires forall i :: 0 <= i < |pending| ==> ParentId(pending[i], rootSpaceId, ids) == None
    ensures !Hierarchy(spaces)
  {
    if ParentsExist(spaces) {
      forall key | key in Keys(pending)
        ensures key in ParentMap(spaces) && ParentMap(spaces)[key] in Keys(pending)
      {
        var s :| s in pending && s.key == key;
        StuckLink(spaces, order, pending, s);
      }
      assert pending[0].key in Keys(pending);
      ClosedIsNotForest(ParentMap(spaces), Keys(pending), pending[0].key);
    }
  }

  lemma StuckLink(spaces: seq<Space>, order: seq<Space>, pending: seq<Space>, s: Space)
    requires UniqueKeys(spaces) && ParentsExist(spaces) && Split(spaces, order, pending)
    requires s in pending && s.parentKey.Some? && s.parentKey.value !in Keys(order)
    ensures s.key in ParentMap(spaces) && ParentMap(spaces)[s.key] in Keys(pending)
  {
    FindIn(spaces, s);
    var parent :| parent in spaces && parent.key == s.parentKey.value;
    assert parent in order ==> parent.key in Keys(order);
  }

  /** Listing every Space after its parent witnesses the hierarchy. */
  lemma ParentsFirstIsHierarchy(spaces: seq<Space>, order: seq<Space>)
    requires UniqueKeys(spaces) && Split(spaces, order, []) && ParentsFirst(order)
    ensures Hierarchy(spaces)
  {
    var next := ParentMap(spaces);
    forall key
      ensures Ends(next, key)
    {
      if key in next {
        var s := Find(spaces, key).value;
        var i :| 0 <= i < |order| && order[i] == s;
        ParentsFirstEnds(spaces, order, i);
      } else {
        assert Follow(next, key, 1) == None;
      }
    }
    forall s | s in spaces && s.parentKey.Some?
      ensures s.parentKey.value in Keys(spaces)
    {
      var i :| 0 <= i < |order| && order[i] == s;
      var j :| 0 <= j < i && order[j].key == s.parentKey.value;
      assert order[j] in spaces;
    }
  }

  lemma {:induction false} ParentsFirstEnds(spaces: seq<Space>, order: seq<Space>, i: nat)
    requires UniqueKeys(spaces) && Split(spaces, order, []) && ParentsFirst(order) && i < |order|
    ensures Ends(ParentMap(spaces), order[i].key)
  {
    var next, s := ParentMap(spaces), order[i];
    assert s in spaces;
    FindIn(spaces, s);
    if s.parentKey.Some? {
      var j :| 0 <= j < i && order[j].key == s.parentKey.value;
      ParentsFirstEnds(spaces, order, j);
      EndsStep(next, s.key);
    } else {
      assert Follow(next, s.key, 1) == None;
    }
  }

  lemma PlacedAsExtends(order: seq<Space>, rootSpaceId: string, ids: map<string, string>, placed: seq<DirectorySpace>,
                 space: Space, id: string)
    requires PlacedAs(order, rootSpaceId, ids, placed)
    requires UniqueKeys(order) && space.key !in Keys(order)
    requires ParentId(space, rootSpaceId, ids).Some?
    ensures PlacedAs(order + [space], rootSpaceId, ids[space.key := id],
                     placed + [DirectorySpace(id, ParentId(space, rootSpaceId, ids).value, space.name)])
  {
  }

  /**
   What the sweep keeps: `placed` are the Spaces of `order`, with the ids drawn so far, and
   `pending` are the others.
   */
  ghost predicate Sweeping(spaces: seq<Space>, rootSpaceId: string, freshIds: seq<string>, order: seq<Space>,
                           pending: seq<Space>, ids: map<string, string>, placed: seq<DirectorySpace>) {
    && Split(spaces, order, pending)
    && PlacedAs(order, rootSpaceId, ids, placed)
    && |placed| + |pending| == |spaces| <= |freshIds|
    && Drawn(freshIds, placed)
  }

  /** The ids were drawn in order. */
  ghost predicate Drawn(freshIds: seq<string>, placed: seq<DirectorySpace>) {
    |placed| <= |freshIds| && forall i :: 0 <= i < |placed| ==> placed[i].id == freshIds[i]
  }

  lemma DrawOne(freshIds: seq<string>, placed: seq<DirectorySpace>, parentSpaceId: string, name: string)
    requires Drawn(freshIds, placed) && |placed| < |freshIds|
    ensures Drawn(freshIds, placed + [DirectorySpace(freshIds[|placed|], parentSpaceId, name)])
  {
  }

  /** One placement: the pending Space at `i` moves to the end of the placed ones. */
  lemma PlaceOne(spaces: seq<Space>, rootSpaceId: string, freshIds: seq<string>, order: seq<Space>,
                 pending: seq<Space>, ids: map<string, string>, placed: seq<DirectorySpace>, i: nat)
    requires Sweeping(spaces, rootSpaceId, freshIds, order, pending, ids, placed)
    requires i < |pending| && ParentId(pending[i], rootSpaceId, ids).Some?
    ensures Sweeping(spaces, rootSpaceId, freshIds, order + [pending[i]], pending[..i] + pending[i + 1..],
                     ids[pending[i].key := freshIds[|placed|]],
                     placed + [DirectorySpace(freshIds[|placed|], ParentId(pending[i], rootSpaceId, ids).value,
                                              pending[i].name)])
  {
    SplitMove(spaces, order, pending, i);
    DrawOne(freshIds, placed, ParentId(pending[i], rootSpaceId, ids).value, pending[i].name);
    PlacedAsMove(spaces, order, pending, i, rootSpaceId, ids, placed, freshIds[|placed|]);
  }

  lemma PlacedAsMove(spaces: seq<Space>, order: seq<Space>, pending: seq<Space>, i: nat, rootSpaceId: string,
                     ids: map<string, string>, placed: seq<DirectorySpace>, id: string)
    requires Split(spaces, order, pending) && PlacedAs(order, rootSpaceId, ids, placed)
    requires i < |pending| && ParentId(pending[i], rootSpaceId, ids).Some?
    ensures PlacedAs(order + [pending[i]], rootSpaceId, ids[pending[i].key := id],
                     placed + [DirectorySpace(id, ParentId(pending[i], rootSpaceId, ids).value, pending[i].name)])
  {
    assert pending[i].key in Keys(pending);
    PlacedAsExtends(order, rootSpaceId, ids, placed, pending[i], id);
  }

  lemma SweepStarts(spaces: seq<Space>, rootSpaceId: string, freshIds: seq<string>)
    requires UniqueKeys(spaces) && |freshIds| >= |spaces|
    ensures Sweeping(spaces, rootSpaceId, freshIds, [], spaces, map[], [])
  {
  }

  lemma SweepEnds(spaces: seq<Space>, rootSpaceId: string, freshIds: seq<string>, order: seq<Space>,
                  ids: map<string, string>, placed: seq<DirectorySpace>)
    requires UniqueKeys(spaces)
    requires Sweeping(spaces, rootSpaceId, freshIds, order, [], ids, placed)
    ensures Hierarchy(spaces)
    ensures exists order' :: Split(spaces, order', []) && PlacedAs(order', rootSpaceId, ids, placed)
  {
    ParentsFirstIsHierarchy(spaces, order);
  }

  lemma SweepStuck(spaces: seq<Space>, rootSpaceId: string, freshIds: seq<string>, order: seq<Space>,
                   pending: seq<Space>, ids: map<string, string>, placed: seq<DirectorySpace>)
    requires UniqueKeys(spaces) && pending != []
    requires Sweeping(spaces, rootSpaceId, freshIds, order, pending, ids, placed)
    requires NonePlaceable(pending, 0, rootSpaceId, ids)
    ensures !Hierarchy(spaces)
  {
    Stuck(spaces, order, pending, rootSpaceId, ids);
  }

  /** No pending Space from position `from` on has a placed parent. */
  ghost predicate NonePlaceable(pending: seq<Space>, from: int, rootSpaceId: string, ids: map<string, string>) {
    forall j :: 0 <= from <= j < |pending| ==> ParentId(pending[j], rootSpaceId, ids) == None
  }

  /** One backward pass over the pending Spaces. */
  method SweepPass(spaces: seq<Space>, rootSpaceId: string, freshIds: seq<string>, ghost order0: seq<Space>,
                   pending0: seq<Space>, ids0: map<string, string>, placed0: seq<DirectorySpace>)
    returns (ghost order: seq<Space>, pending: seq<Space>, ids: map<string, string>, placed: seq<DirectorySpace>)
    requires Sweeping(spaces, rootSpaceId, freshIds, order0, pending0, ids0, placed0)
    ensures Sweeping(spaces, rootSpaceId, freshIds, order, pending, ids, placed)
    ensures |pending| <= |pending0|
    ensures |pending| == |pending0| ==> NonePlaceable(pending, 0, rootSpaceId, ids)
  {
    order, pending, ids, placed := order0, pending0, ids0, placed0;
    var index := |pending| - 1;
    while index >= 0
      invariant -1 <= index < |pending| <= |pending0|
      invariant Sweeping(spaces, rootSpaceId, freshIds, order, pending, ids, placed)
      invariant |pending| == |pending0| ==> NonePlaceable(pending, index + 1, rootSpaceId, ids)
    {
      var space := pending[index];
      var parentSpaceId := ParentId(space, rootSpaceId, ids);
      if parentSpaceId.Some? {
        var id := freshIds[|placed|];
        PlaceOne(spaces, rootSpaceId, freshIds, order, pending, ids, placed, index);
        ids := ids[space.key := id];
        placed := placed + [DirectorySpace(id, parentSpaceId.value, space.name)];
        order := order + [space];
        pending := pending[..index] + pending[index + 1..];
      }
      index := index - 1;
    }
  }

  /**
   The sweep of `initializeGuild`. Each pass splices out the pending Spaces whose parent exists;
   a pass that places nothing throws. `freshIds` are the UUIDs drawn one after another.
   */
  method PlaceSpaces(spaces: seq<Space>, rootSpaceId: string, freshIds: seq<string>)
    returns (result: Option<seq<DirectorySpace>>, ids: map<string, string>)
    requires UniqueKeys(spaces)
    requires |freshIds| >= |spaces|
    ensures result.Some? <==> Hierarchy(spaces)
    ensures result.Some? ==> exists order ::
      Split(spaces, order, []) && PlacedAs(order, rootSpaceId, ids, result.value)
    ensures result.Some? ==>
      |result.value| == |spaces| && forall i :: 0 <= i < |spaces| ==> result.value[i].id == freshIds[i]
  {
    ids := map[];
    var placed: seq<DirectorySpace> := [];
    var pending := spaces;
    ghost var order: seq<Space> := [];
    SweepStarts(spaces, rootSpaceId, freshIds);
    while |pending| > 0
      invariant Sweeping(spaces, rootSpaceId, freshIds, order, pending, ids, placed)
    {
      var before := |pending|;
      order, pending, ids, placed := SweepPass(spaces, rootSpaceId, freshIds, order, pending, ids, placed);
      if |pending| == before {
        SweepStuck(spaces, rootSpaceId, freshIds, order, pending, ids, placed);
        return None, ids;
      }
    }
    assert pending == [];
    SweepEnds(spaces, rootSpaceId, freshIds, order, ids, placed);
    return Some(placed), ids;
  }

  // ----- the validator's verdict against the sweep -----

  /** What the parser keeps of a Space: every string trimmed. The sweep runs on the untrimmed list. */
  function Normalised(space: Space): Space {
    Space(Trim(space.key), Trim(space.name), Trim(space.description),
          if space.parentKey.Some? then Some(Trim(space.parentKey.value)) else None)
  }

  function NormalisedAll(spaces: seq<Space>): seq<Space> {
    seq(|spaces|, i requires 0 <= i < |spaces| => Normalised(spaces[i]))
  }

  lemma NormalisedLink(spaces: seq<Space>, key: string)
    requires UniqueKeys(NormalisedAll(spaces)) && key in ParentMap(spaces)
    ensures var clean := ParentMap(NormalisedAll(spaces));
            Trim(key) in clean && clean[Trim(key)] == Trim(ParentMap(spaces)[key])
  {
    var space, clean := Find(spaces, key).value, NormalisedAll(spaces);
    var i :| 0 <= i < |spaces| && spaces[i] == space;
    FindIn(clean, clean[i]);
  }

  lemma {:induction false} FollowTrimmed(next: map<string, string>, clean: map<string, string>, key: string, n: nat)
    requires forall k :: k in next ==> Trim(k) in clean && clean[Trim(k)] == Trim(next[k])
    requires Follow(next, key, n).Some?
    ensures Follow(clean, Trim(key), n) == Some(Trim(Follow(next, key, n).value))
    decreases n
  {
    if n > 0 {
      FollowTrimmed(next, clean, next[key], n - 1);
    }
  }

  /**
   A blueprint that passed the validator is materialised exactly when every parent key is
   written, character for character, as some Space's key.
   */
  lemma SweepAfterValidation(spaces: seq<Space>)
    requires UniqueKeys(NormalisedAll(spaces)) && Hierarchy(NormalisedAll(spaces))
    ensures UniqueKeys(spaces)
    ensures Hierarchy(spaces) <==> ParentsExist(spaces)
  {
    var clean := NormalisedAll(spaces);
    forall i, j | 0 <= i < j < |spaces|
      ensures spaces[i].key != spaces[j].key
    {
      assert clean[i].key != clean[j].key;
    }
    forall key
      ensures Ends(ParentMap(spaces), key)
    {
      assert Ends(ParentMap(clean), Trim(key));
      var n: nat :| Follow(ParentMap(clean), Trim(key), n) == None;
      if Follow(ParentMap(spaces), key, n).Some? {
        forall k | k in ParentMap(spaces) {
          NormalisedLink(spaces, k);
        }
        FollowTrimmed(ParentMap(spaces), ParentMap(clean), key, n);
      }
    }
  }

  /** With keys already trimmed the validator's verdict is enough. */
  lemma TrimmedSpacesAreMaterialised(spaces: seq<Space>)
    requires UniqueKeys(NormalisedAll(spaces)) && Hierarchy(NormalisedAll(spaces))
    requires forall s :: s in spaces ==> IsTrimmed(s.key) && (s.parentKey.Some? ==> IsTrimmed(s.parentKey.value))
    ensures UniqueKeys(spaces) && Hierarchy(spaces)
  {
    SweepAfterValidation(spaces);
    var clean := NormalisedAll(spaces);
    forall s | s in spaces && s.parentKey.Some?
      ensures s.parentKey.value in Keys(spaces)
    {
      var i :| 0 <= i < |spaces| && spaces[i] == s;
      assert clean[i] in clean;
      var parent :| parent in clean && parent.key == s.parentKey.value;
      var j :| 0 <= j < |clean| && clean[j] == parent;
      assert spaces[j].key == parent.key;
    }
  }

  /** Padding around a key is accepted by the validator and then makes the sweep throw. */
  lemma PaddedKeyIsValidatedThenThrows(name: string, description: string)
    ensures var spaces := [Space("lab ", name, description, None), Space("kiln", name, description, Some("lab"))];
            UniqueKeys(NormalisedAll(spaces)) && Hierarchy(NormalisedAll(spaces)) && !ParentsExist(spaces)
  {
    var top, child := Space("lab ", name, description, None), Space("kiln", name, description, Some("lab"));
    TrimLiterals();
    PairIsHierarchy(Normalised(top), Normalised(child));
    assert NormalisedAll([top, child]) == [Normalised(top), Normalised(child)];
    assert [top, child][1] == child;
    assert |"lab "| == 4 && |"lab"| == 3;
    assert "lab" !in Keys([top, child]);
  }

  lemma TrimLiterals()
    ensures Trim("lab ") == "lab" && Trim("lab") == "lab" && Trim("kiln") == "kiln"
  {
  }

  lemma PairIsHierarchy(top: Space, child: Space)
    requires top.parentKey == None && child.parentKey == Some(top.key) && child.key != top.key
    ensures UniqueKeys([top, child]) && Hierarchy([top, child])
  {
    var spaces := [top, child];
    assert spaces[0].key == top.key;
    assert EarlierKey(spaces, 1, top.key);
    ParentsFirstIsHierarchy(spaces, spaces);
  }
}
