/** Governed Knowledge: versions that are drafted, proposed, made canonical and retired. */
module Knowledge {
  import opened Options

  type Id = string

  datatype Phase = Draft | Proposed | Canonical | Deprecated | Archived

  datatype Version = Version(number: int, phase: Phase, content: string)

  /** Newest first, and never empty: an item is created with its first version. */
  type History = versions: seq<Version> | versions != [] witness [Version(1, Draft, "")]

  datatype Item = Item(id: Id, phase: Phase, currentVersion: int, canonicalVersion: Option<int>, versions: History)

  /** The version numbers are whatever the caller sends. */
  datatype Command =
    | Create(newId: Id, content: string)
    | Save(id: Id, version: int, content: string)
    | StartRevision(id: Id, version: int)
    | Propose(id: Id, version: int)
    | Review(id: Id, version: int, approve: bool)
    | Archive(id: Id, version: int)
    | Deprecate(id: Id, version: int)

  function Find(items: seq<Item>, id: Id): (r: Option<Item>)
    ensures r.Some? ==> r.value.id == id
  {
    if items == [] then None
    else if items[0].id == id then Some(items[0])
    else Find(items[1..], id)
  }

  function FindVersion(versions: seq<Version>, number: int): (r: Option<Version>)
    ensures r.Some? ==> r.value in versions && r.value.number == number
  {
    if versions == [] then None
    else if versions[0].number == number then Some(versions[0])
    else FindVersion(versions[1..], number)
  }

  function MaxNumber(versions: seq<Version>): (max: int)
    requires versions != []
    ensures forall v :: v in versions ==> v.number <= max
    ensures exists v :: v in versions && v.number == max
  {
    if |versions| == 1 then versions[0].number
    else
      var rest := MaxNumber(versions[1..]);
      if versions[0].number < rest then rest else versions[0].number
  }

  // ----- changes to one item -----

  /** The same versions with the same text; phases may differ. */
  predicate SameText(a: seq<Version>, b: seq<Version>) {
    |a| == |b| && forall i :: 0 <= i < |a| ==> a[i].number == b[i].number && a[i].content == b[i].content
  }

  function SetPhase(versions: History, number: int, phase: Phase): (r: History)
    ensures SameText(versions, r)
    ensures forall v :: v in r && v.phase == Canonical ==> v in versions || phase == Canonical
  {
    seq(|versions|, i requires 0 <= i < |versions| =>
      if versions[i].number == number then versions[i].(phase := phase) else versions[i])
  }

  function ArchiveDrafts(versions: History): (r: History)
    ensures SameText(versions, r)
    ensures forall v :: v in r ==> v.phase != Draft
    ensures forall v :: v in r && v.phase == Canonical ==> v in versions
  {
    seq(|versions|, i requires 0 <= i < |versions| =>
      if versions[i].phase == Draft then versions[i].(phase := Archived) else versions[i])
  }

  /** An approval makes one version canonical and deprecates every other canonical one. */
  function MakeCanonical(versions: History, number: int): (r: History)
    ensures SameText(versions, r)
    ensures forall v :: v in r && v.phase == Canonical ==> v.number == number
  {
    seq(|versions|, i requires 0 <= i < |versions| =>
      if versions[i].number == number then versions[i].(phase := Canonical)
      else if versions[i].phase == Canonical then versions[i].(phase := Deprecated)
      else versions[i])
  }

  /** The two calls that throw unless the item is as the caller saw it. */
  predicate Accepts(items: seq<Item>, c: Command) {
    if c.Create? then true
    else
      var found := Find(items, c.id);
      match c
      case Save(_, version, _) => found.Some? && found.value.currentVersion == version && found.value.phase == Draft
      case StartRevision(_, version) =>
        && found.Some? && found.value.currentVersion == version && found.value.phase == Canonical
        && found.value.canonicalVersion.Some?
        && FindVersion(found.value.versions, found.value.canonicalVersion.value).Some?
      case _ => true
  }

  function Changed(item: Item, c: Command): Item
    requires !c.Create?
    requires c.StartRevision? ==> item.canonicalVersion.Some? &&
                                  FindVersion(item.versions, item.canonicalVersion.value).Some?
  {
    match c
    case Save(_, _, content) =>
      var number := MaxNumber(item.versions) + 1;
      item.(currentVersion := number, versions := [Version(number, Draft, content)] + ArchiveDrafts(item.versions))
    case StartRevision(_, _) =>
      var number := MaxNumber(item.versions) + 1;
      var canonical := FindVersion(item.versions, item.canonicalVersion.value).value;
      item.(phase := Draft, currentVersion := number,
            versions := [canonical.(number := number, phase := Draft)] + item.versions)
    case Propose(_, version) =>
      item.(phase := Proposed, versions := SetPhase(item.versions, version, Proposed))
    case Review(_, version, approve) =>
      if approve then
        item.(phase := Canonical, canonicalVersion := Some(version), versions := MakeCanonical(item.versions, version))
      else
        item.(phase := Draft, versions := SetPhase(item.versions, version, Draft))
    case Archive(_, version) =>
      item.(phase := if item.canonicalVersion.None? then Archived else Canonical,
            currentVersion := if item.canonicalVersion.Some? then item.canonicalVersion.value else version,
            versions := SetPhase(item.versions, version, Archived))
    case Deprecate(_, version) =>
      item.(phase := Deprecated, versions := SetPhase(item.versions, version, Deprecated))
  }

  function Replaced(items: seq<Item>, next: Item): seq<Item> {
    seq(|items|, i requires 0 <= i < |items| => if items[i].id == next.id then next else items[i])
  }

  function Created(c: Command): Item
    requires c.Create?
  {
    Item(c.newId, Draft, 1, None, [Version(1, Draft, c.content)])
  }

  function Step(items: seq<Item>, c: Command): seq<Item> {
    if !Accepts(items, c) then items
    else if c.Create? then [Created(c)] + items
    else if Find(items, c.id).None? then items
    else Replaced(items, Changed(Find(items, c.id).value, c))
  }

  predicate Drawable(items: seq<Item>, c: Command) {
    c.Create? ==> Find(items, c.newId).None?
  }

  // ----- the invariant -----

  predicate Descending(versions: seq<Version>) {
    forall i, j :: 0 <= i < j < |versions| ==> versions[i].number > versions[j].number
  }

  /** Whatever is canonical is the version that `canonicalVersion` names. */
  predicate CanonicalIsNamed(item: Item) {
    forall v :: v in item.versions && v.phase == Canonical ==> item.canonicalVersion == Some(v.number)
  }

  predicate Sound(item: Item) {
    Descending(item.versions) && CanonicalIsNamed(item)
  }

  predicate Valid(items: seq<Item>) {
    forall item :: item in items ==> Sound(item)
  }

  lemma ChangeKeepsSound(item: Item, c: Command)
    requires !c.Create? && Sound(item)
    requires c.StartRevision? ==> item.canonicalVersion.Some? &&
                                  FindVersion(item.versions, item.canonicalVersion.value).Some?
    ensures Sound(Changed(item, c))
  {
    var before, next := item.versions, Changed(item, c).versions;
    if c.Save? || c.StartRevision? {
      assert SameText(before, next[1..]);
      NewestOnTop(next[0], next[1..], before);
    }
  }

  lemma NewestOnTop(top: Version, rest: seq<Version>, before: seq<Version>)
    requires before != [] && SameText(before, rest) && Descending(before) && top.number > MaxNumber(before)
    ensures Descending([top] + rest)
  {
  }

  // ----- published text is never rewritten -----

  /** The later history is the earlier one with newer versions in front; only phases may differ. */
  ghost predicate Extends(earlier: seq<Version>, later: seq<Version>) {
    |earlier| <= |later| && SameText(earlier, later[|later| - |earlier|..])
  }

  lemma ChangeExtends(item: Item, c: Command)
    requires !c.Create?
    requires c.StartRevision? ==> item.canonicalVersion.Some? &&
                                  FindVersion(item.versions, item.canonicalVersion.value).Some?
    ensures Extends(item.versions, Changed(item, c).versions)
  {
    var before, next := item.versions, Changed(item, c).versions;
    if c.Save? || c.StartRevision? {
      var rest := if c.Save? then ArchiveDrafts(before) else before;
      assert next[1..] == rest;
    } else {
      assert next[0..] == next;
    }
  }

  lemma ExtendsTransitive(a: seq<Version>, b: seq<Version>, c: seq<Version>)
    requires Extends(a, b) && Extends(b, c)
    ensures Extends(a, c)
  {
  }

  lemma {:induction false} FindReplaced(items: seq<Item>, next: Item, id: Id)
    ensures Find(Replaced(items, next), id) ==
            if id == next.id && Find(items, id).Some? then Some(next) else Find(items, id)
  {
    if items != [] {
      FindReplaced(items[1..], next, id);
      assert Replaced(items, next)[1..] == Replaced(items[1..], next);
    }
  }

  lemma {:induction false} FindIn(items: seq<Item>, id: Id)
    ensures Find(items, id).Some? ==> Find(items, id).value in items
  {
    if items != [] && items[0].id != id {
      FindIn(items[1..], id);
    }
  }

  lemma ReplacedKeepsValid(items: seq<Item>, next: Item)
    requires Valid(items) && Sound(next)
    ensures Valid(Replaced(items, next))
  {
  }

  lemma StepKeepsValid(items: seq<Item>, c: Command)
    requires Valid(items)
    ensures Valid(Step(items, c))
  {
    if Accepts(items, c) && !c.Create? && Find(items, c.id).Some? {
      FindIn(items, c.id);
      ChangeKeepsSound(Find(items, c.id).value, c);
      ReplacedKeepsValid(items, Changed(Find(items, c.id).value, c));
    }
  }

  lemma StepExtends(items: seq<Item>, c: Command, id: Id)
    requires Drawable(items, c) && Find(items, id).Some?
    ensures Find(Step(items, c), id).Some?
    ensures Extends(Find(items, id).value.versions, Find(Step(items, c), id).value.versions)
  {
    if Accepts(items, c) {
      if c.Create? {
        assert Step(items, c)[1..] == items;
      } else if Find(items, c.id).Some? {
        FindReplaced(items, Changed(Find(items, c.id).value, c), id);
        if id == c.id {
          ChangeExtends(Find(items, id).value, c);
        }
      }
    }
  }

  // ----- whole runs -----

  ghost predicate IsRun(states: seq<seq<Item>>, calls: seq<Command>) {
    && |states| == |calls| + 1
    && Valid(states[0])
    && forall i :: 0 <= i < |calls| ==> StepsAt(states, calls, i)
  }

  ghost predicate StepsAt(states: seq<seq<Item>>, calls: seq<Command>, i: nat)
    requires i < |calls| && |states| == |calls| + 1
  {
    Drawable(states[i], calls[i]) && states[i + 1] == Step(states[i], calls[i])
  }

  /**
   Whatever calls are made with whatever version arguments, every history stays strictly
   descending and its canonical version, if any, is the one the item names.
   */
  lemma {:induction false} ReachableItemsAreSound(states: seq<seq<Item>>, calls: seq<Command>, n: nat)
    requires IsRun(states, calls) && n < |states|
    ensures Valid(states[n])
  {
    if n > 0 {
      ReachableItemsAreSound(states, calls, n - 1);
      assert StepsAt(states, calls, n - 1);
      StepKeepsValid(states[n - 1], calls[n - 1]);
    }
  }

  /** In every reachable state an item has at most one canonical version, the one it names. */
  lemma AtMostOneCanonical(states: seq<seq<Item>>, calls: seq<Command>, n: nat, item: Item, i: nat, j: nat)
    requires IsRun(states, calls) && n < |states| && item in states[n]
    requires i < |item.versions| && item.versions[i].phase == Canonical
    requires j < |item.versions| && item.versions[j].phase == Canonical
    ensures i == j && item.canonicalVersion == Some(item.versions[i].number)
  {
    ReachableItemsAreSound(states, calls, n);
    assert item.versions[i] in item.versions && item.versions[j] in item.versions;
  }

  /** No call of any run removes, renumbers or rewrites a version that was once saved. */
  lemma {:induction false} HistoryIsAppendOnly(states: seq<seq<Item>>, calls: seq<Command>, i: nat, j: nat, id: Id)
    requires IsRun(states, calls) && i <= j < |states| && Find(states[i], id).Some?
    ensures Find(states[j], id).Some?
    ensures Extends(Find(states[i], id).value.versions, Find(states[j], id).value.versions)
    decreases j
  {
    if i < j {
      HistoryIsAppendOnly(states, calls, i, j - 1, id);
      assert StepsAt(states, calls, j - 1);
      StepExtends(states[j - 1], calls[j - 1], id);
      ExtendsTransitive(Find(states[i], id).value.versions, Find(states[j - 1], id).value.versions,
                        Find(states[j], id).value.versions);
    }
  }

  // ----- canonical items have their canonical version -----

  /** A canonical item names a version that exists and is canonical. */
  predicate Published(item: Item) {
    item.phase == Canonical ==>
      item.canonicalVersion.Some? &&
      exists v :: v in item.versions && v.number == item.canonicalVersion.value && v.phase == Canonical
  }

  predicate AllPublished(items: seq<Item>) {
    forall item :: item in items ==> Published(item)
  }

  /**
   What a caller has to see to: approve only a version that exists, and archive, in an item that
   names a version, only while that version is canonical and never that version itself.
   */
  predicate Careful(item: Item, c: Command) {
    match c
    case Review(_, version, approve) => approve ==> exists v :: v in item.versions && v.number == version
    case Archive(_, version) =>
      item.canonicalVersion.Some? ==>
        && version != item.canonicalVersion.value
        && exists v :: v in item.versions && v.number == item.canonicalVersion.value && v.phase == Canonical
    case _ => true
  }

  predicate CarefulCall(items: seq<Item>, c: Command) {
    Accepts(items, c) && !c.Create? && Find(items, c.id).Some? ==> Careful(Find(items, c.id).value, c)
  }

  /** Of every call on an item: it leaves the item published exactly when the caller was careful. */
  lemma PublishedAfterIff(item: Item, c: Command)
    requires !c.Create?
    requires c.StartRevision? ==> item.canonicalVersion.Some? &&
                                  FindVersion(item.versions, item.canonicalVersion.value).Some?
    requires c.Save? ==> item.phase == Draft
    ensures Published(Changed(item, c)) <==> Careful(item, c)
  {
  }

  lemma ReplacedPublishedIff(items: seq<Item>, next: Item)
    requires AllPublished(items) && Find(items, next.id).Some?
    ensures AllPublished(Replaced(items, next)) <==> Published(next)
  {
    FindIn(items, next.id);
    var after := Replaced(items, next);
    var i :| 0 <= i < |items| && items[i] == Find(items, next.id).value;
    assert after[i] == next && next in after;
    forall item | item in after
      ensures item == next || item in items
    {
    }
  }

  lemma StepPublishedIff(items: seq<Item>, c: Command)
    requires AllPublished(items)
    ensures AllPublished(Step(items, c)) <==> CarefulCall(items, c)
  {
    if Accepts(items, c) && !c.Create? && Find(items, c.id).Some? {
      PublishedAfterIff(Find(items, c.id).value, c);
      ReplacedPublishedIff(items, Changed(Find(items, c.id).value, c));
    }
  }

  /**
   Over a whole run, canonical items always have their canonical version if and only if they start
   with it and every call is careful.
   */
  lemma RunStaysPublishedIff(states: seq<seq<Item>>, calls: seq<Command>)
    requires IsRun(states, calls)
    ensures (forall n :: 0 <= n < |states| ==> AllPublished(states[n])) <==>
            AllPublished(states[0]) && forall n :: 0 <= n < |calls| ==> CarefulCall(states[n], calls[n])
  {
    if forall n :: 0 <= n < |states| ==> AllPublished(states[n]) {
      forall n | 0 <= n < |calls|
        ensures CarefulCall(states[n], calls[n])
      {
        assert StepsAt(states, calls, n);
        assert AllPublished(states[n + 1]);
        StepPublishedIff(states[n], calls[n]);
      }
    }
    if AllPublished(states[0]) && forall n :: 0 <= n < |calls| ==> CarefulCall(states[n], calls[n]) {
      for n := 0 to |calls|
        invariant forall m :: 0 <= m <= n ==> AllPublished(states[m])
      {
        assert StepsAt(states, calls, n);
        StepPublishedIff(states[n], calls[n]);
      }
    }
  }

  /** The item the store starts with. */
  function Seed(id: Id, first: string, second: string): Item {
    Item(id, Canonical, 2, Some(2), [Version(2, Canonical, second), Version(1, Deprecated, first)])
  }

  /** On the seeded item, approving a version that does not exist leaves nothing canonical. */
  lemma ApprovingMissingVersion(id: Id, first: string, second: string)
    ensures Published(Seed(id, first, second))
    ensures var after := Changed(Seed(id, first, second), Review(id, 3, true));
            after.phase == Canonical && after.canonicalVersion == Some(3) &&
            forall v :: v in after.versions ==> v.phase == Deprecated
  {
  }

  /** On the seeded item, archiving the canonical version leaves the item canonical without one. */
  lemma ArchivingCanonicalVersion(id: Id, first: string, second: string)
    ensures var after := Changed(Seed(id, first, second), Archive(id, 2));
            after.phase == Canonical && after.canonicalVersion == Some(2) &&
            forall v :: v in after.versions ==> v.phase != Canonical
  {
  }

  // ----- the mutable store -----

  /** Methods that may throw return None; the others always succeed, even for an unknown item. */
  class KnowledgeStore {
    var knowledge: seq<Item>

    /** The store starts with one item whose second version is canonical. */
    constructor (id: Id, first: string, second: string)
      ensures Valid(knowledge)
      ensures knowledge == [Seed(id, first, second)] && AllPublished(knowledge)
    {
      knowledge := [Seed(id, first, second)];
      new;
      ApprovingMissingVersion(id, first, second);
    }

    method CreateKnowledge(newId: Id, content: string)
      modifies this
      ensures knowledge == Step(old(knowledge), Create(newId, content))
    {
      knowledge := [Item(newId, Draft, 1, None, [Version(1, Draft, content)])] + knowledge;
    }

    method SaveKnowledgeDraft(id: Id, expectedVersion: int, content: string) returns (result: Option<int>)
      modifies this
      ensures knowledge == Step(old(knowledge), Save(id, expectedVersion, content))
      ensures result.Some? <==> Accepts(old(knowledge), Save(id, expectedVersion, content))
      ensures result.Some? ==> Find(knowledge, id).Some? && Find(knowledge, id).value.currentVersion == result.value
    {
      var found := Find(knowledge, id);
      if found.None? || found.value.currentVersion != expectedVersion || found.value.phase != Draft {
        return None;
      }
      var item := found.value;
      var version := MaxNumber(item.versions) + 1;
      var next := item.(currentVersion := version,
        versions := [Version(version, Draft, content)] + ArchiveDrafts(item.versions));
      FindReplaced(knowledge, next, id);
      knowledge := Replaced(knowledge, next);
      return Some(version);
    }

    method StartKnowledgeRevision(id: Id, expectedVersion: int) returns (result: Option<int>)
      modifies this
      ensures knowledge == Step(old(knowledge), StartRevision(id, expectedVersion))
      ensures result.Some? <==> Accepts(old(knowledge), StartRevision(id, expectedVersion))
      ensures result.Some? ==> Find(knowledge, id).Some? && Find(knowledge, id).value.currentVersion == result.value
    {
      var found := Find(knowledge, id);
      if found.None? || found.value.currentVersion != expectedVersion || found.value.phase != Canonical {
        return None;
      }
      var item := found.value;
      if item.canonicalVersion.None? {
        return None;
      }
      var canonical := FindVersion(item.versions, item.canonicalVersion.value);
      if canonical.None? {
        return None;
      }
      var version := MaxNumber(item.versions) + 1;
      var next := item.(phase := Draft, currentVersion := version,
        versions := [canonical.value.(number := version, phase := Draft)] + item.versions);
      FindReplaced(knowledge, next, id);
      knowledge := Replaced(knowledge, next);
      return Some(version);
    }

    method ProposeKnowledge(id: Id, expectedVersion: int)
      modifies this
      ensures knowledge == Step(old(knowledge), Propose(id, expectedVersion))
    {
      var found := Find(knowledge, id);
      if found.Some? {
        knowledge := Replaced(knowledge, found.value.(phase := Proposed,
          versions := SetPhase(found.value.versions, expectedVersion, Proposed)));
      }
    }

    method ReviewKnowledge(id: Id, expectedVersion: int, approve: bool)
      modifies this
      ensures knowledge == Step(old(knowledge), Review(id, expectedVersion, approve))
    {
      var found := Find(knowledge, id);
      if found.Some? {
        var item := found.value;
        var next := item.(phase := if approve then Canonical else Draft,
          canonicalVersion := if approve then Some(expectedVersion) else item.canonicalVersion,
          versions := if approve then MakeCanonical(item.versions, expectedVersion)
                      else SetPhase(item.versions, expectedVersion, Draft));
        knowledge := Replaced(knowledge, next);
      }
    }

    method ArchiveKnowledge(id: Id, expectedVersion: int)
      modifies this
      ensures knowledge == Step(old(knowledge), Archive(id, expectedVersion))
    {
      var found := Find(knowledge, id);
      if found.Some? {
        var item := found.value;
        var next := item.(versions := SetPhase(item.versions, expectedVersion, Archived));
        if item.canonicalVersion.None? {
          next := next.(phase := Archived, currentVersion := expectedVersion);
        } else {
          next := next.(phase := Canonical, currentVersion := item.canonicalVersion.value);
        }
        knowledge := Replaced(knowledge, next);
      }
    }

    method DeprecateKnowledge(id: Id, expectedVersion: int)
      modifies this
      ensures knowledge == Step(old(knowledge), Deprecate(id, expectedVersion))
    {
      var found := Find(knowledge, id);
      if found.Some? {
        knowledge := Replaced(knowledge, found.value.(phase := Deprecated,
          versions := SetPhase(found.value.versions, expectedVersion, Deprecated)));
      }
    }
  }
}
