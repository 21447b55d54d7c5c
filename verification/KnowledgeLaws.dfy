/** What each Knowledge call asks for and what it leaves of an item and its versions. */
module KnowledgeLaws {
  import opened Options
  import opened Lookups
  import opened Knowledge

  function OfId(id: Id): Item -> bool {
    (x: Item) => x.id == id
  }

  function OfNumber(number: int): Version -> bool {
    (x: Version) => x.number == number
  }

  lemma {:induction false} FindFinds(items: seq<Item>, id: Id)
    ensures Finds(items, OfId(id), Find(items, id))
  {
    if items != [] {
      if items[0].id == id {
        FindsHere(items, OfId(id));
      } else {
        FindFinds(items[1..], id);
        FindsLater(items, OfId(id), Find(items[1..], id));
      }
    }
  }

  lemma {:induction false} FindVersionFinds(versions: seq<Version>, number: int)
    ensures Finds(versions, OfNumber(number), FindVersion(versions, number))
  {
    if versions != [] {
      if versions[0].number == number {
        FindsHere(versions, OfNumber(number));
      } else {
        FindVersionFinds(versions[1..], number);
        FindsLater(versions, OfNumber(number), FindVersion(versions[1..], number));
      }
    }
  }

  /** The item at `k` is the only one of that id. */
  ghost predicate Only(items: seq<Item>, id: Id, k: nat) {
    k < |items| && forall j :: 0 <= j < |items| ==> (items[j].id == id <==> j == k)
  }

  lemma Located(items: seq<Item>, id: Id, k: nat)
    requires Only(items, id, k)
    ensures Find(items, id) == Some(items[k])
    ensures forall next: Item :: next.id == id ==> Replaced(items, next) == items[k := next]
  {
    FindFinds(items, id);
    assert IsFirst(items, OfId(id), k);
    FindsOne(items, OfId(id), Find(items, id), Some(items[k]));
  }

  /** `after` has the versions of `before`, with the phases that `phase` says. */
  ghost predicate Rephased(before: seq<Version>, after: seq<Version>, phase: Version -> Phase) {
    |after| == |before| && forall i :: 0 <= i < |before| ==> after[i] == before[i].(phase := phase(before[i]))
  }

  // ----- what the calls ask for -----

  lemma SaveAccepted(items: seq<Item>, c: Command, k: nat)
    requires c.Save? && Only(items, c.id, k)
    ensures Accepts(items, c) <==> items[k].currentVersion == c.version && items[k].phase == Draft
  {
    Located(items, c.id, k);
  }

  lemma StartRevisionAccepted(items: seq<Item>, c: Command, k: nat)
    requires c.StartRevision? && Only(items, c.id, k)
    ensures Accepts(items, c) <==>
            && items[k].currentVersion == c.version && items[k].phase == Canonical && items[k].canonicalVersion.Some?
            && exists v :: v in items[k].versions && v.number == items[k].canonicalVersion.value
  {
    Located(items, c.id, k);
    if items[k].canonicalVersion.Some? {
      FindVersionFinds(items[k].versions, items[k].canonicalVersion.value);
    }
  }

  /** Calls on an unknown item throw if they ask for anything, and change nothing. */
  lemma UnknownChangesNothing(items: seq<Item>, c: Command)
    requires !c.Create? && forall x :: x in items ==> x.id != c.id
    ensures Step(items, c) == items && (c.Save? || c.StartRevision? ==> !Accepts(items, c))
  {
    FindFinds(items, c.id);
  }

  // ----- what they leave -----

  lemma CreateLeaves(items: seq<Item>, c: Command)
    requires c.Create?
    ensures Step(items, c) == [Item(c.newId, Draft, 1, None, [Version(1, Draft, c.content)])] + items
  {
  }

  /** A saved draft becomes the newest version, with the text as sent; older drafts are archived. */
  lemma SaveLeaves(items: seq<Item>, c: Command, k: nat)
    requires Valid(items) && c.Save? && Only(items, c.id, k) && Accepts(items, c)
    ensures var item, after := items[k], Step(items, c);
            var number := item.versions[0].number + 1;
            && |after| == |items|
            && after == items[k := item.(currentVersion := number, versions := after[k].versions)]
            && after[k].versions[0] == Version(number, Draft, c.content)
            && Rephased(item.versions, after[k].versions[1..], (v: Version) =>
                 if v.phase == Draft then Archived else v.phase)
  {
    Located(items, c.id, k);
    NewestFirst(items[k]);
    assert Step(items, c)[k].versions[1..] == ArchiveDrafts(items[k].versions);
  }

  lemma NewestFirst(item: Item)
    requires Sound(item)
    ensures MaxNumber(item.versions) == item.versions[0].number
  {
    assert item.versions[0] in item.versions;
  }

  /** A revision starts as a draft with the text of the canonical version; no earlier version changes. */
  lemma StartRevisionLeaves(items: seq<Item>, c: Command, k: nat, m: nat)
    requires Valid(items) && c.StartRevision? && Only(items, c.id, k) && Accepts(items, c)
    requires m < |items[k].versions| && items[k].canonicalVersion == Some(items[k].versions[m].number)
    ensures var item := items[k];
            var number := item.versions[0].number + 1;
            Step(items, c) == items[k := item.(phase := Draft, currentVersion := number,
              versions := [Version(number, Draft, item.versions[m].content)] + item.versions)]
  {
    Located(items, c.id, k);
    NewestFirst(items[k]);
    var versions, number := items[k].versions, items[k].versions[m].number;
    FindVersionFinds(versions, number);
    assert IsFirst(versions, OfNumber(number), m);
    FindsOne(versions, OfNumber(number), FindVersion(versions, number), Some(versions[m]));
  }

  /** What the unguarded calls make of a version. */
  function PhaseAfter(c: Command): Version -> Phase {
    (v: Version) =>
      match c
      case Propose(_, version) => if v.number == version then Proposed else v.phase
      case Review(_, version, true) =>
        if v.number == version then Canonical else if v.phase == Canonical then Deprecated else v.phase
      case Review(_, version, false) => if v.number == version then Draft else v.phase
      case Archive(_, version) => if v.number == version then Archived else v.phase
      case Deprecate(_, version) => if v.number == version then Deprecated else v.phase
      case _ => v.phase
  }

  /** The calls that never throw: they rephase versions, and say what the item is and names. */
  lemma RephasingLeaves(items: seq<Item>, c: Command, k: nat)
    requires c.Propose? || c.Review? || c.Archive? || c.Deprecate?
    requires Only(items, c.id, k)
    ensures var item, after := items[k], Step(items, c);
            && Accepts(items, c) && |after| == |items| && after == items[k := after[k]]
            && Rephased(item.versions, after[k].versions, PhaseAfter(c))
            && after[k].id == item.id
            && after[k].phase == (match c
                 case Propose(_, _) => Proposed
                 case Review(_, _, approve) => if approve then Canonical else Draft
                 case Archive(_, _) => if item.canonicalVersion.None? then Archived else Canonical
                 case _ => Deprecated)
            && after[k].canonicalVersion ==
                 (if c.Review? && c.approve then Some(c.version) else item.canonicalVersion)
            && after[k].currentVersion ==
                 (if !c.Archive? then item.currentVersion
                  else if item.canonicalVersion.Some? then item.canonicalVersion.value else c.version)
  {
    Located(items, c.id, k);
  }

  // ----- ids over runs -----

  ghost predicate DistinctIds(items: seq<Item>) {
    forall i, j :: 0 <= i < j < |items| ==> items[i].id != items[j].id
  }

  lemma StepKeepsIds(items: seq<Item>, c: Command)
    requires DistinctIds(items) && Drawable(items, c)
    ensures DistinctIds(Step(items, c))
  {
    if c.Create? {
      FindFinds(items, c.newId);
      forall j | 0 <= j < |items|
        ensures items[j].id != c.newId
      {
        assert items[j] in items;
      }
    }
  }

  /** With drawn ids every item of a reachable state is the only one of its id. */
  lemma {:induction false} IdsStayDistinct(states: seq<seq<Item>>, calls: seq<Command>, n: nat)
    requires IsRun(states, calls) && n < |states| && DistinctIds(states[0])
    ensures DistinctIds(states[n])
    ensures forall k :: 0 <= k < |states[n]| ==> Only(states[n], states[n][k].id, k)
  {
    if n > 0 {
      IdsStayDistinct(states, calls, n - 1);
      assert StepsAt(states, calls, n - 1);
      StepKeepsIds(states[n - 1], calls[n - 1]);
    }
  }
}
