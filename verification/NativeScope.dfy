// Which objects of a native Dameng migration are withheld, and which drops of
// existing target objects remain allowed (datamigrate/dameng_native_scope.go).
module NativeScope {
  import opened Wrappers

  type Id = string

  datatype Stage = Preflight | Dependency | Execute | Named(name: string)

  // One statement and the phase it is meant for; the phase may be left open.
  datatype Unit = Unit(sql: string, phase: string)

  // `key` is the collision key of kind and name; `owned` marks constraint and
  // index kinds, `table` names the table such an object belongs to, and `rank`
  // orders the kinds.
  datatype Object = Object(id: Id, key: string, isTable: bool, name: string, table: string,
                           parent: Id, dependencies: seq<Id>, managed: bool, owned: bool,
                           rank: int, units: seq<Unit>)

  // ---------------------------------------------------------------------------
  // The rules a set of withheld objects must obey
  // ---------------------------------------------------------------------------

  predicate Needs(o: Object, id: Id) { id in o.dependencies || (o.parent != "" && o.parent == id) }

  ghost predicate Depends(o: Object, failed: set<Id>) { exists id :: id in failed && Needs(o, id) }

  // A failure reaches everything that depends on it or is its child.
  ghost predicate Propagated(objects: seq<Object>, failed: set<Id>) {
    forall i :: 0 <= i < |objects| && Depends(objects[i], failed) ==> objects[i].id in failed
  }

  // Later planned objects of one collision key replace earlier ones.
  function SourceByName(objects: seq<Object>): map<string, Object> {
    if objects == [] then map[]
    else SourceByName(objects[..|objects| - 1])[objects[|objects| - 1].key := objects[|objects| - 1]]
  }

  // Later objects of one ID replace earlier ones.
  function ById(objects: seq<Object>): map<Id, Object> {
    if objects == [] then map[]
    else ById(objects[..|objects| - 1])[objects[|objects| - 1].id := objects[|objects| - 1]]
  }

  predicate Healthy(source: map<string, Object>, key: string, failed: set<Id>) {
    key in source && source[key].id !in failed
  }

  // The parent recorded for a target object, or the first table carrying its table name.
  function Owner(targets: seq<Object>, t: Object): Id {
    if t.parent != "" then t.parent else FirstTable(targets, t.table)
  }

  function FirstTable(targets: seq<Object>, name: string): Id {
    var table := TableNamed(targets, name);
    if table.Some? then table.value.id else ""
  }

  function TableNamed(objects: seq<Object>, name: string): (r: Option<Object>)
    ensures r.Some? ==> r.value in objects
  {
    if objects == [] then None
    else if objects[0].isTable && objects[0].name == name then Some(objects[0])
    else TableNamed(objects[1..], name)
  }

  function Up(byId: map<Id, Object>, id: Id): Id {
    if id != "" && id in byId then byId[id].parent else ""
  }

  function Ancestor(byId: map<Id, Object>, id: Id, n: nat): Id {
    if n == 0 then id else Up(byId, Ancestor(byId, id, n - 1))
  }

  predicate HealthyAt(source: map<string, Object>, byId: map<Id, Object>, failed: set<Id>, id: Id) {
    id != "" && id in byId && Healthy(source, byId[id].key, failed)
  }

  // Some object on the owner chain is replaced healthily and takes this one with it.
  ghost predicate GoesWithOwner(source: map<string, Object>, byId: map<Id, Object>, failed: set<Id>, owner: Id) {
    exists n: nat :: HealthyAt(source, byId, failed, Ancestor(byId, owner, n))
  }

  // A target object that will still be there, as it is, after the run.
  ghost predicate Retained(objects: seq<Object>, targets: seq<Object>, failed: set<Id>, t: Object) {
    var source, byId := SourceByName(objects), ById(targets);
    && !((t.managed || t.owned) && GoesWithOwner(source, byId, failed, Owner(targets, t)))
    && !Healthy(source, t.key, failed)
  }

  ghost predicate Spared(source: map<string, Object>, byId: map<Id, Object>, failed: set<Id>, id: Id) {
    id in byId && byId[id].key in source ==> source[byId[id].key].id in failed
  }

  // What a retained target object depends on is not replaced.
  ghost predicate Protected(objects: seq<Object>, targets: seq<Object>, failed: set<Id>) {
    forall i, id ::
      0 <= i < |targets| && id in targets[i].dependencies && Retained(objects, targets, failed, targets[i]) ==>
      Spared(SourceByName(objects), ById(targets), failed, id)
  }

  ghost predicate Closed(objects: seq<Object>, targets: seq<Object>, failed: set<Id>) {
    Propagated(objects, failed) && Protected(objects, targets, failed)
  }

  ghost predicate LeastPropagated(objects: seq<Object>, initial: set<Id>, failed: set<Id>) {
    && initial <= failed && Propagated(objects, failed)
    && forall s: set<Id> :: initial <= s && Propagated(objects, s) ==> failed <= s
  }

  ghost predicate LeastClosed(objects: seq<Object>, targets: seq<Object>, initial: set<Id>, failed: set<Id>) {
    && initial <= failed && Closed(objects, targets, failed)
    && forall s: set<Id> :: initial <= s && Closed(objects, targets, s) ==> failed <= s
  }

  // More failures retain more target objects.
  lemma RetainedMonotone(objects: seq<Object>, targets: seq<Object>, small: set<Id>, large: set<Id>, t: Object)
    requires small <= large && Retained(objects, targets, small, t)
    ensures Retained(objects, targets, large, t)
  {
    var source, byId := SourceByName(objects), ById(targets);
    if GoesWithOwner(source, byId, large, Owner(targets, t)) {
      var n: nat :| HealthyAt(source, byId, large, Ancestor(byId, Owner(targets, t), n));
      assert HealthyAt(source, byId, small, Ancestor(byId, Owner(targets, t), n));
    }
  }

  lemma LeastUnique(objects: seq<Object>, targets: seq<Object>, initial: set<Id>, a: set<Id>, b: set<Id>)
    requires LeastClosed(objects, targets, initial, a) && LeastClosed(objects, targets, initial, b)
    ensures a == b
  {}

  // ---------------------------------------------------------------------------
  // The owner chain
  // ---------------------------------------------------------------------------

  lemma {:induction false} Orbit(byId: map<Id, Object>, owner: Id, seen: set<Id>, n: nat)
    requires owner in seen && forall id :: id in seen ==> Up(byId, id) in seen
    ensures Ancestor(byId, owner, n) in seen
  {
    if n > 0 { Orbit(byId, owner, seen, n - 1); }
  }

  // The chain is walked until it ends or repeats.
  method WalkOwners(source: map<string, Object>, byId: map<Id, Object>, states: map<Id, Stage>, first: Id)
    returns (goes: bool)
    ensures goes <==> GoesWithOwner(source, byId, states.Keys, first)
  {
    var owner := first;
    var seen: set<Id> := {};
    ghost var n: nat := 0;
    while owner != "" && owner !in seen
      invariant owner == Ancestor(byId, first, n)
      invariant n == 0 ==> seen == {} && owner == first
      invariant n > 0 ==> first in seen
      invariant seen <= byId.Keys
      invariant forall id :: id in seen ==> !HealthyAt(source, byId, states.Keys, id)
      invariant forall id :: id in seen ==> Up(byId, id) in seen || Up(byId, id) == owner
      decreases byId.Keys - seen
    {
      if owner !in byId {
        break;
      }
      if byId[owner].key in source && source[byId[owner].key].id !in states {
        assert HealthyAt(source, byId, states.Keys, Ancestor(byId, first, n));
        return true;
      }
      seen := seen + {owner};
      owner := byId[owner].parent;
      n := n + 1;
    }
    var all := seen + {owner, ""};
    forall k: nat
      ensures !HealthyAt(source, byId, states.Keys, Ancestor(byId, first, k))
    {
      Orbit(byId, first, all, k);
    }
    goes := false;
  }

  // ---------------------------------------------------------------------------
  // From diagnostics to withheld objects
  // ---------------------------------------------------------------------------

  // A diagnostic about an object, or about the whole task if it names none.
  datatype Issue = Issue(objectId: Id, warning: bool)

  predicate HasErrors(issues: seq<Issue>) { exists k :: 0 <= k < |issues| && !issues[k].warning }

  ghost predicate Lists(byId: map<Id, Object>, objects: seq<Object>) {
    && (forall id :: id in byId ==> byId[id].id == id)
    && (forall o :: o in objects ==> o.id in byId)
  }

  lemma {:induction false} ByIdLists(objects: seq<Object>)
    ensures Lists(ById(objects), objects)
  {
    if objects != [] {
      var n := |objects| - 1;
      ByIdLists(objects[..n]);
      assert objects == objects[..n] + [objects[n]];
    }
  }

  // The planned object a diagnostic is about; one about a target object falls on its first planned namesake.
  function Subject(objects: seq<Object>, byId: map<Id, Object>, targets: map<Id, Object>, id: Id): Option<Object> {
    if id == "" then None
    else if id in byId then Some(byId[id])
    else if id in targets then FirstNamed(objects, targets[id].key)
    else None
  }

  // The object whose statement creates a managed one.
  function Creator(objects: seq<Object>, byId: map<Id, Object>, o: Object): Option<Object> {
    if o.parent in byId then Some(byId[o.parent]) else TableNamed(objects, o.table)
  }

  // Where the way up the creators ends, and whether it ended for want of a creator.
  datatype Climb = Climb(end: Object, lost: bool)

  function Climbed(objects: seq<Object>, byId: map<Id, Object>, o: Object, seen: set<Id>): Climb
    requires Lists(byId, objects) && o.id in byId
    decreases byId.Keys - seen
  {
    if !o.managed || o.id in seen then Climb(o, false)
    else match Creator(objects, byId, o)
         case None => Climb(o, true)
         case Some(creator) => Climbed(objects, byId, creator, seen + {o.id})
  }

  // Every object of the path but the last is managed and created by the next one.
  ghost predicate CreatorPath(objects: seq<Object>, byId: map<Id, Object>, path: seq<Object>) {
    path != [] && forall k :: 0 <= k < |path| - 1 ==>
      path[k].managed && Creator(objects, byId, path[k]) == Some(path[k + 1])
  }

  // The climb ends at an object with a statement of its own, at one without a creator, or where it repeats.
  ghost predicate Ends(objects: seq<Object>, byId: map<Id, Object>, path: seq<Object>, seen: set<Id>, c: Climb)
    requires path != []
  {
    && path[|path| - 1] == c.end
    && (c.lost ==> c.end.managed && Creator(objects, byId, c.end).None?)
    && (!c.lost && c.end.managed ==> c.end.id in seen || exists k :: 0 <= k < |path| - 1 && path[k].id == c.end.id)
  }

  lemma {:induction false} ClimbEnds(objects: seq<Object>, byId: map<Id, Object>, o: Object, seen: set<Id>)
    returns (path: seq<Object>)
    requires Lists(byId, objects) && o.id in byId
    ensures CreatorPath(objects, byId, path) && path[0] == o
    ensures Ends(objects, byId, path, seen, Climbed(objects, byId, o, seen))
    decreases byId.Keys - seen
  {
    path := [o];
    if o.managed && o.id !in seen && Creator(objects, byId, o).Some? {
      var rest := ClimbEnds(objects, byId, Creator(objects, byId, o).value, seen + {o.id});
      path := [o] + rest;
      var c := Climbed(objects, byId, o, seen);
      if !c.lost && c.end.managed && c.end.id !in seen {
        if c.end.id == o.id {
          assert path[0].id == c.end.id;
        } else {
          var k :| 0 <= k < |rest| - 1 && rest[k].id == c.end.id;
          assert path[k + 1].id == c.end.id;
        }
      }
    }
  }

  // Where an error is pinned to: nowhere, or where the climb from its subject ends.
  function Pinned(objects: seq<Object>, byId: map<Id, Object>, targets: map<Id, Object>, issue: Issue): Option<Climb>
    requires Lists(byId, objects)
  {
    match Subject(objects, byId, targets, issue.objectId)
    case None => None
    case Some(o) => SubjectListed(objects, byId, targets, issue.objectId); Some(Climbed(objects, byId, o, {}))
  }

  lemma SubjectListed(objects: seq<Object>, byId: map<Id, Object>, targets: map<Id, Object>, id: Id)
    requires Lists(byId, objects) && Subject(objects, byId, targets, id).Some?
    ensures Subject(objects, byId, targets, id).value.id in byId
  {
    if id !in byId { FirstNamedListed(objects, targets[id].key); }
  }

  lemma {:induction false} FirstNamedListed(objects: seq<Object>, key: string)
    requires FirstNamed(objects, key).Some?
    ensures FirstNamed(objects, key).value in objects
  {
    if objects[0].key != key { FirstNamedListed(objects[1..], key); }
  }

  function PinOf(objects: seq<Object>, byId: map<Id, Object>, targets: map<Id, Object>, issue: Issue): set<Id>
    requires Lists(byId, objects)
  {
    var c := Pinned(objects, byId, targets, issue);
    if issue.warning || c.None? then {} else {c.value.end.id}
  }

  // The objects that the errors are pinned to.
  function Pins(objects: seq<Object>, byId: map<Id, Object>, targets: map<Id, Object>, issues: seq<Issue>): set<Id>
    requires Lists(byId, objects)
  {
    if issues == [] then {}
    else Pins(objects, byId, targets, issues[..|issues| - 1]) + PinOf(objects, byId, targets, issues[|issues| - 1])
  }

  lemma PinsNext(objects: seq<Object>, byId: map<Id, Object>, targets: map<Id, Object>, issues: seq<Issue>, k: nat)
    requires Lists(byId, objects) && k < |issues|
    ensures Pins(objects, byId, targets, issues[..k + 1])
            == Pins(objects, byId, targets, issues[..k]) + PinOf(objects, byId, targets, issues[k])
  {
    assert issues[..k + 1][..k] == issues[..k];
  }

  lemma {:induction false} PinsExactly(objects: seq<Object>, byId: map<Id, Object>, targets: map<Id, Object>,
                                       issues: seq<Issue>, id: Id)
    requires Lists(byId, objects)
    ensures id in Pins(objects, byId, targets, issues) <==>
            exists x :: x in issues && id in PinOf(objects, byId, targets, x)
  {
    if issues != [] {
      var n := |issues| - 1;
      PinsExactly(objects, byId, targets, issues[..n], id);
      assert issues == issues[..n] + [issues[n]];
    }
  }

  // An error that no planned object can answer for.
  predicate Unanswered(objects: seq<Object>, byId: map<Id, Object>, targets: map<Id, Object>, issue: Issue)
    requires Lists(byId, objects)
  {
    !issue.warning && match Pinned(objects, byId, targets, issue) case None => true case Some(c) => c.lost
  }

  // The errors added for objects that are withheld because of others, in any order.
  ghost predicate Adds(before: seq<Issue>, after: seq<Issue>, ids: set<Id>) {
    && before <= after && |after| == |before| + |ids|
    && (forall id :: id in ids <==> Issue(id, false) in after[|before|..])
    && (forall k :: |before| <= k < |after| ==> !after[k].warning)
  }

  lemma AddsOne(before: seq<Issue>, after: seq<Issue>, ids: set<Id>, id: Id)
    requires Adds(before, after, ids) && id !in ids
    ensures Adds(before, after + [Issue(id, false)], ids + {id})
  {
    assert (after + [Issue(id, false)])[|before|..] == after[|before|..] + [Issue(id, false)];
  }

  // The stage recorded before for the object of an error.
  function StageOf(before: map<Id, Stage>, id: Id): Stage { if id in before then before[id] else Stage.Preflight }

  // Objects of errors keep their stage, all others are withheld because of a dependency.
  ghost predicate Staged(states: map<Id, Stage>, pins: set<Id>, before: map<Id, Stage>) {
    forall id :: id in states ==> states[id] == if id in pins then StageOf(before, id) else Dependency
  }

  // Every error of a run that may start is pinned to an object that is withheld.
  ghost predicate AllAnswered(objects: seq<Object>, byId: map<Id, Object>, targets: map<Id, Object>,
                              issues: seq<Issue>, failed: set<Id>)
    requires Lists(byId, objects)
  {
    forall k :: 0 <= k < |issues| && !issues[k].warning ==>
      var c := Pinned(objects, byId, targets, issues[k]);
      c.Some? && !c.value.lost && c.value.end.id in failed
  }

  // ---------------------------------------------------------------------------
  // The preflight and its loops
  // ---------------------------------------------------------------------------

  // Failures are only added; what was recorded first stays, and what a rule adds is a dependency failure.
  ghost predicate Grows(before: map<Id, Stage>, after: map<Id, Stage>) {
    && before.Keys <= after.Keys
    && (forall id :: id in before ==> after[id] == before[id])
    && (forall id :: id in after && id !in before ==> after[id] == Dependency)
  }

  function FirstNamed(objects: seq<Object>, key: string): Option<Object> {
    if objects == [] then None
    else if objects[0].key == key then Some(objects[0])
    else FirstNamed(objects[1..], key)
  }

  // A drop stays only if the first planned object of its name is going to be created.
  predicate Allowed(objects: seq<Object>, failed: set<Id>, drop: Object) {
    FirstNamed(objects, drop.key).Some? && FirstNamed(objects, drop.key).value.id !in failed
  }

  function AllowedDrops(objects: seq<Object>, failed: set<Id>, drops: seq<Object>): seq<Object> {
    if drops == [] then []
    else AllowedDrops(objects, failed, drops[..|drops| - 1]) +
         (if Allowed(objects, failed, drops[|drops| - 1]) then [drops[|drops| - 1]] else [])
  }

  // ---- Lookups ----

  method FindTable(objects: seq<Object>, name: string) returns (r: Option<Object>)
    ensures r == TableNamed(objects, name)
  {
    for i := 0 to |objects|
      invariant TableNamed(objects, name) == TableNamed(objects[i..], name)
    {
      if objects[i].isTable && objects[i].name == name { return Some(objects[i]); }
    }
    r := None;
  }

  method FindNamed(objects: seq<Object>, key: string) returns (r: Option<Object>)
    ensures r == FirstNamed(objects, key)
  {
    for i := 0 to |objects|
      invariant FirstNamed(objects, key) == FirstNamed(objects[i..], key)
    {
      if objects[i].key == key { return Some(objects[i]); }
    }
    r := None;
  }

  method IndexById(objects: seq<Object>) returns (byId: map<Id, Object>)
    ensures byId == ById(objects)
  {
    byId := map[];
    for i := 0 to |objects|
      invariant byId == ById(objects[..i])
    {
      assert objects[..i + 1][..i] == objects[..i];
      byId := byId[objects[i].id := objects[i]];
    }
    assert objects[..|objects|] == objects;
  }

  method IndexByName(objects: seq<Object>) returns (source: map<string, Object>)
    ensures source == SourceByName(objects)
  {
    source := map[];
    for i := 0 to |objects|
      invariant source == SourceByName(objects[..i])
    {
      assert objects[..i + 1][..i] == objects[..i];
      source := source[objects[i].key := objects[i]];
    }
    assert objects[..|objects|] == objects;
  }

  method FindSubject(objects: seq<Object>, byId: map<Id, Object>, targets: map<Id, Object>, id: Id)
    returns (o: Option<Object>)
    ensures o == Subject(objects, byId, targets, id)
  {
    o := if id in byId then Some(byId[id]) else None;
    if o.None? && id in targets { o := FindNamed(objects, targets[id].key); }
    if id == "" { o := None; }
  }

  method FindCreator(objects: seq<Object>, byId: map<Id, Object>, o: Object) returns (creator: Option<Object>)
    ensures creator == Creator(objects, byId, o)
  {
    if o.parent in byId { return Some(byId[o.parent]); }
    creator := FindTable(objects, o.table);
  }

  method AnyError(issues: seq<Issue>) returns (found: bool)
    ensures found <==> HasErrors(issues)
  {
    for i := 0 to |issues|
      invariant forall k :: 0 <= k < i ==> issues[k].warning
    {
      if !issues[i].warning { return true; }
    }
    found := false;
  }

  class Preflight {
    const objects: seq<Object>
    const targets: seq<Object>
    const declared: seq<Object>    // children that the planned tables' statements create
    var drops: seq<Object>
    var issues: seq<Issue>
    var blocked: map<Id, Stage>
    var states: map<Id, Stage>
    var withheld: set<nat>         // positions of objects with the status of a withheld one
    var ready: bool
    var canStart: bool

    constructor (objects: seq<Object>, targets: seq<Object>, declared: seq<Object>, drops: seq<Object>,
                 issues: seq<Issue>)
      ensures this.objects == objects && this.targets == targets && this.declared == declared
      ensures this.drops == drops && this.issues == issues && blocked == states == map[]
    {
      this.objects, this.targets, this.declared, this.drops, this.issues := objects, targets, declared, drops, issues;
      blocked, states, withheld, ready, canStart := map[], map[], {}, false, false;
    }

    method DependencyFailed(o: Object) returns (failed: bool)
      ensures failed <==> Depends(o, states.Keys)
    {
      var deps := o.dependencies + (if o.parent != "" then [o.parent] else []);
      for k := 0 to |deps|
        invariant forall j :: 0 <= j < k ==> deps[j] !in states
      {
        if deps[k] in states {
          assert Needs(o, deps[k]);
          return true;
        }
      }
      forall id | Needs(o, id) ensures id in deps {
        if id !in o.dependencies { assert deps[|o.dependencies|] == id; }
      }
      failed := false;
    }

    // Repeats over all objects until no further failure follows.
    method Propagate()
      modifies this`states
      ensures Grows(old(states), states)
      ensures LeastPropagated(objects, old(states).Keys, states.Keys)
      ensures states.Keys <= old(states).Keys + set i | 0 <= i < |objects| :: objects[i].id
    {
      ghost var all := set i | 0 <= i < |objects| :: objects[i].id;
      var changed := true;
      while changed
        invariant Grows(old(states), states) && states.Keys <= old(states).Keys + all
        invariant forall s: set<Id> :: old(states).Keys <= s && Propagated(objects, s) ==> states.Keys <= s
        invariant !changed ==> Propagated(objects, states.Keys)
        decreases all - states.Keys, changed
      {
        changed := false;
        ghost var start := states;
        for i := 0 to |objects|
          invariant Grows(old(states), states) && states.Keys <= old(states).Keys + all
          invariant forall s: set<Id> :: old(states).Keys <= s && Propagated(objects, s) ==> states.Keys <= s
          invariant start.Keys <= states.Keys && (changed ==> all - states.Keys < all - start.Keys)
                    && (!changed ==> states == start)
          invariant !changed ==> forall j :: 0 <= j < i && Depends(objects[j], states.Keys) ==> objects[j].id in states
        {
          var o := objects[i];
          if o.id !in states {
            var failed := DependencyFailed(o);
            if failed {
              DependsMonotone(o, states.Keys);
              assert o.id in all;
              states := states[o.id := Dependency];
              changed := true;
            }
          }
        }
      }
    }

    // Repeats over the frozen target graph, propagating after every pass, until no
    // retained object depends on a replaced one. The failures recorded so far must
    // already have been propagated.
    method Protect()
      requires Propagated(objects, states.Keys)
      modifies this`states
      ensures Grows(old(states), states)
      ensures LeastClosed(objects, targets, old(states).Keys, states.Keys)
    {
      var source := IndexByName(objects);
      var byId := IndexById(targets);
      ghost var all := set i | 0 <= i < |objects| :: objects[i].id;
      var changed := true;
      while changed
        invariant Grows(old(states), states)
        invariant Propagated(objects, states.Keys)
        invariant Below(objects, targets, old(states).Keys, states.Keys)
        invariant !changed ==> Protected(objects, targets, states.Keys)
        decreases all - states.Keys, changed
      {
        ghost var start := states;
        changed := ProtectPass(source, byId, old(states).Keys);
        ghost var middle := states;
        Propagate();
        PropagatedBelow(objects, targets, old(states).Keys, middle.Keys, states.Keys);
        if !changed { assert states.Keys == start.Keys; }
      }
    }

    // One pass over the target objects.
    method ProtectPass(source: map<string, Object>, byId: map<Id, Object>, ghost initial: set<Id>)
      returns (changed: bool)
      requires source == SourceByName(objects) && byId == ById(targets)
      requires Below(objects, targets, initial, states.Keys)
      modifies this`states
      ensures Grows(old(states), states)
      ensures Below(objects, targets, initial, states.Keys)
      ensures changed ==> exists i :: 0 <= i < |objects| && objects[i].id in states.Keys - old(states).Keys
      ensures !changed ==> states == old(states) && Protected(objects, targets, states.Keys)
    {
      changed := false;
      for i := 0 to |targets|
        invariant Grows(old(states), states)
        invariant Below(objects, targets, initial, states.Keys)
        invariant changed ==> exists i :: 0 <= i < |objects| && objects[i].id in states.Keys - old(states).Keys
        invariant !changed ==> states == old(states)
        invariant !changed ==> forall j :: 0 <= j < i ==> TargetServed(objects, targets, states.Keys, targets[j])
      {
        var served := ProtectTarget(source, byId, targets[i], initial);
        changed := changed || !served;
      }
    }

    // The recorded parent, or else the first table of the target with the recorded table name.
    method OwnerOf(t: Object) returns (owner: Id)
      ensures owner == Owner(targets, t)
    {
      owner := t.parent;
      if owner == "" {
        var table := FindTable(targets, t.table);
        if table.Some? { owner := table.value.id; }
      }
    }

    // One target object: if it is retained, everything it depends on is spared.
    method ProtectTarget(source: map<string, Object>, byId: map<Id, Object>, t: Object, ghost initial: set<Id>)
      returns (served: bool)
      requires source == SourceByName(objects) && byId == ById(targets) && t in targets
      requires Below(objects, targets, initial, states.Keys)
      modifies this`states
      ensures Grows(old(states), states)
      ensures Below(objects, targets, initial, states.Keys)
      ensures served ==> states == old(states) && TargetServed(objects, targets, states.Keys, t)
      ensures !served ==> exists i :: 0 <= i < |objects| && objects[i].id in states.Keys - old(states).Keys
    {
      served := true;
      if t.managed || t.owned {
        var owner := OwnerOf(t);
        var goes := WalkOwners(source, byId, states, owner);
        if goes { return; }
      }
      if t.key in source && source[t.key].id !in states { return; }
      assert Retained(objects, targets, states.Keys, t);
      served := SpareDependencies(source, byId, t, initial);
    }

    // A retained target object: what it depends on is spared.
    method SpareDependencies(source: map<string, Object>, byId: map<Id, Object>, t: Object, ghost initial: set<Id>)
      returns (served: bool)
      requires source == SourceByName(objects) && byId == ById(targets) && t in targets
      requires Below(objects, targets, initial, states.Keys) && Retained(objects, targets, states.Keys, t)
      modifies this`states
      ensures Grows(old(states), states)
      ensures Below(objects, targets, initial, states.Keys)
      ensures served ==> states == old(states) && TargetServed(objects, targets, states.Keys, t)
      ensures !served ==> exists i :: 0 <= i < |objects| && objects[i].id in states.Keys - old(states).Keys
    {
      served := true;
      for k := 0 to |t.dependencies|
        invariant Grows(old(states), states)
        invariant Retained(objects, targets, states.Keys, t)
        invariant Below(objects, targets, initial, states.Keys)
        invariant served ==> states == old(states)
        invariant served ==> forall j :: 0 <= j < k ==> Spared(source, byId, states.Keys, t.dependencies[j])
        invariant !served ==> exists i :: 0 <= i < |objects| && objects[i].id in states.Keys - old(states).Keys
      {
        var dep := t.dependencies[k];
        if dep in byId && byId[dep].key in source && source[byId[dep].key].id !in states {
          var replacement := source[byId[dep].key];
          SourceIsPlanned(objects, byId[dep].key);
          MustBeSpared(objects, targets, initial, states.Keys, t, dep);
          ghost var before := states.Keys;
          states := states[replacement.id := Dependency];
          served := false;
          RetainedMonotone(objects, targets, before, states.Keys, t);
        }
      }
    }

    // Preflight failures, propagated: the initial states of a run.
    method PreflightStates()
      modifies this`states
      ensures Grows(blocked, states)
      ensures LeastPropagated(objects, blocked.Keys, states.Keys)
    {
      states := blocked;
      Propagate();
    }

    method KeptDrops() returns (kept: seq<Object>)
      ensures kept == AllowedDrops(objects, states.Keys, drops)
    {
      kept := [];
      for k := 0 to |drops|
        invariant kept == AllowedDrops(objects, states.Keys, drops[..k])
      {
        assert drops[..k + 1][..k] == drops[..k];
        var planned := FindNamed(objects, drops[k].key);
        if planned.Some? && planned.value.id !in states { kept := kept + [drops[k]]; }
      }
      assert drops[..|drops|] == drops;
    }

    // Up the creators of an inline object, to the one whose statement would still create it.
    method FindOwner(byId: map<Id, Object>, o: Object) returns (c: Climb)
      requires Lists(byId, objects) && o.id in byId
      ensures c == Climbed(objects, byId, o, {})
    {
      var at, seen := o, {};
      while at.managed && at.id !in seen
        invariant at.id in byId && Climbed(objects, byId, at, seen) == Climbed(objects, byId, o, {})
        decreases byId.Keys - seen
      {
        var creator := FindCreator(objects, byId, at);
        if creator.None? { return Climb(at, true); }
        seen := seen + {at.id};
        at := creator.value;
      }
      c := Climb(at, false);
    }

    method FindPin(byId: map<Id, Object>, byTarget: map<Id, Object>, issue: Issue)
      returns (pin: Option<Id>, unanswered: bool)
      requires Lists(byId, objects)
      ensures PinOf(objects, byId, byTarget, issue) == if pin.Some? then {pin.value} else {}
      ensures unanswered == Unanswered(objects, byId, byTarget, issue)
    {
      if issue.warning { return None, false; }
      var o := FindSubject(objects, byId, byTarget, issue.objectId);
      if o.None? { return None, true; }
      SubjectListed(objects, byId, byTarget, issue.objectId);
      var c := FindOwner(byId, o.value);
      return Some(c.end.id), c.lost;
    }

    // Every error withholds the object it is pinned to, under the stage recorded before, or else the whole task.
    method Diagnose(byId: map<Id, Object>) returns (global: bool, pinned: map<Id, Stage>)
      requires Lists(byId, objects)
      ensures pinned.Keys == Pins(objects, byId, ById(targets), issues)
      ensures forall id :: id in pinned ==> pinned[id] == StageOf(blocked, id)
      ensures global <==> exists k :: 0 <= k < |issues| && Unanswered(objects, byId, ById(targets), issues[k])
    {
      global, pinned := false, map[];
      var byTarget := IndexById(targets);
      for k := 0 to |issues|
        invariant pinned.Keys == Pins(objects, byId, byTarget, issues[..k])
        invariant forall id :: id in pinned ==> pinned[id] == StageOf(blocked, id)
        invariant global <==> exists j :: 0 <= j < k && Unanswered(objects, byId, byTarget, issues[j])
      {
        PinsNext(objects, byId, byTarget, issues, k);
        var pin, unanswered := FindPin(byId, byTarget, issues[k]);
        global := global || unanswered;
        if pin.Some? {
          pinned := pinned[pin.value := if pin.value in blocked then blocked[pin.value] else Stage.Preflight];
        }
      }
      assert issues[..|issues|] == issues;
    }

    // Each object withheld because of another one is reported as an error of its own.
    method Report(ids: set<Id>)
      modifies this`issues
      ensures Adds(old(issues), issues, ids)
    {
      var rest := ids;
      while rest != {}
        invariant rest <= ids && Adds(old(issues), issues, ids - rest)
        decreases rest
      {
        var id :| id in rest;
        AddsOne(old(issues), issues, ids - rest, id);
        assert ids - (rest - {id}) == ids - rest + {id};
        issues, rest := issues + [Issue(id, false)], rest - {id};
      }
    }

    // The run may start with what is left, unless an error stands for the whole task.
    method MarkObjects(global: bool)
      modifies this`withheld, this`ready, this`canStart
      ensures withheld == set i | 0 <= i < |objects| && objects[i].id in states
      ensures ready <==> !HasErrors(issues)
      ensures canStart <==> !global && (ready || exists i :: 0 <= i < |objects| && objects[i].id !in states)
    {
      var errors := AnyError(issues);
      ready, withheld := !errors, {};
      canStart := ready && !global;
      for i := 0 to |objects|
        invariant withheld == set j | 0 <= j < i && objects[j].id in states
        invariant ready <==> !HasErrors(issues)
        invariant canStart <==> !global && (ready || exists j :: 0 <= j < i && objects[j].id !in states)
      {
        if objects[i].id in states { withheld := withheld + {i}; }
        else if !global { canStart := true; }
      }
    }

    // The blocked objects and everything that has to be withheld with them.
    method Withhold()
      modifies this`states
      ensures LeastClosed(objects, targets, blocked.Keys, states.Keys) && Grows(blocked, states)
    {
      PreflightStates();
      ghost var propagated := states.Keys;
      Protect();
      FromPropagated(objects, targets, blocked.Keys, propagated, states.Keys);
      ghost var closed := states.Keys;
      Propagate();
      assert states.Keys == closed;
    }

    // What follows from the withheld objects.
    method Conclude(global: bool)
      modifies this`issues, this`blocked, this`withheld, this`ready, this`canStart, this`drops
      ensures Adds(old(issues), issues, states.Keys - old(blocked).Keys)
      ensures blocked == states && withheld == set i | 0 <= i < |objects| && objects[i].id in states
      ensures ready <==> !HasErrors(issues)
      ensures canStart <==> !global && (ready || exists i :: 0 <= i < |objects| && objects[i].id !in states)
      ensures drops == AllowedDrops(objects, states.Keys, old(drops))
    {
      Report(states.Keys - blocked.Keys);
      blocked := states;
      MarkObjects(global);
      var kept := KeptDrops();
      drops := kept;
    }

    // From diagnostics to the decision: withheld is the least closed set above the objects the errors are
    // pinned to, only drops of objects that will be replaced remain, and a run that may start has pinned
    // every error to an object it withholds.
    method Finalize()
      modifies this
      ensures var byId, known := ById(objects + declared), ById(targets);
              && Lists(byId, objects)
              && LeastClosed(objects, targets, Pins(objects, byId, known, old(issues)), states.Keys)
              && Staged(states, Pins(objects, byId, known, old(issues)), old(blocked))
              && Adds(old(issues), issues, states.Keys - Pins(objects, byId, known, old(issues)))
              && (canStart ==> AllAnswered(objects, byId, known, old(issues), states.Keys))
              && (canStart <==>
                    && (forall k :: 0 <= k < |old(issues)| ==> !Unanswered(objects, byId, known, old(issues)[k]))
                    && (ready || exists i :: 0 <= i < |objects| && objects[i].id !in states))
      ensures blocked == states && withheld == set i | 0 <= i < |objects| && objects[i].id in states
      ensures ready <==> !HasErrors(issues)
      ensures drops == AllowedDrops(objects, states.Keys, old(drops))
    {
      var byId := IndexById(objects + declared);
      ByIdLists(objects + declared);
      var global, pinned := Diagnose(byId);
      blocked := pinned;
      Withhold();
      GrownStages(pinned, states, old(blocked));
      if !global { Answered(objects, byId, ById(targets), issues, states.Keys); }
      Conclude(global);
    }
  }

  lemma Answered(objects: seq<Object>, byId: map<Id, Object>, targets: map<Id, Object>, issues: seq<Issue>,
                 failed: set<Id>)
    requires Lists(byId, objects) && Pins(objects, byId, targets, issues) <= failed
    requires forall k :: 0 <= k < |issues| ==> !Unanswered(objects, byId, targets, issues[k])
    ensures AllAnswered(objects, byId, targets, issues, failed)
  {
    forall k | 0 <= k < |issues| && !issues[k].warning
      ensures var c := Pinned(objects, byId, targets, issues[k]);
              c.Some? && !c.value.lost && c.value.end.id in failed
    {
      assert !Unanswered(objects, byId, targets, issues[k]);
      var id := Pinned(objects, byId, targets, issues[k]).value.end.id;
      PinsExactly(objects, byId, targets, issues, id);
      assert issues[k] in issues && id in PinOf(objects, byId, targets, issues[k]);
    }
  }

  lemma GrownStages(pinned: map<Id, Stage>, states: map<Id, Stage>, before: map<Id, Stage>)
    requires Grows(pinned, states)
    requires forall id :: id in pinned ==> pinned[id] == StageOf(before, id)
    ensures Staged(states, pinned.Keys, before)
  {}

  // Finalizing again, with the diagnostics of the first time and more, withholds at least as much and
  // keeps no drop that was given up.
  lemma FinalizingAgain(objects: seq<Object>, byId: map<Id, Object>, targets: seq<Object>, issues: seq<Issue>,
                        more: seq<Issue>, first: set<Id>, second: set<Id>, drop: Object)
    requires Lists(byId, objects) && forall x :: x in issues ==> x in more
    requires LeastClosed(objects, targets, Pins(objects, byId, ById(targets), issues), first)
    requires LeastClosed(objects, targets, Pins(objects, byId, ById(targets), more), second)
    ensures first <= second
    ensures Allowed(objects, second, drop) ==> Allowed(objects, first, drop)
  {
    forall id | id in Pins(objects, byId, ById(targets), issues)
      ensures id in Pins(objects, byId, ById(targets), more)
    {
      PinsExactly(objects, byId, ById(targets), issues, id);
      PinsExactly(objects, byId, ById(targets), more, id);
    }
  }

  // Every closed set above the initial failures contains these.
  ghost predicate Below(objects: seq<Object>, targets: seq<Object>, initial: set<Id>, failed: set<Id>) {
    forall s: set<Id> :: initial <= s && Closed(objects, targets, s) ==> failed <= s
  }

  ghost predicate TargetServed(objects: seq<Object>, targets: seq<Object>, failed: set<Id>, t: Object) {
    Retained(objects, targets, failed, t) ==>
      forall k :: 0 <= k < |t.dependencies| ==>
        Spared(SourceByName(objects), ById(targets), failed, t.dependencies[k])
  }

  lemma PropagatedBelow(objects: seq<Object>, targets: seq<Object>, initial: set<Id>, before: set<Id>, after: set<Id>)
    requires Below(objects, targets, initial, before) && LeastPropagated(objects, before, after)
    ensures Below(objects, targets, initial, after)
  {}

  // Every closed set spares what an already retained object depends on.
  lemma MustBeSpared(objects: seq<Object>, targets: seq<Object>, initial: set<Id>, failed: set<Id>, t: Object, dep: Id)
    requires Below(objects, targets, initial, failed) && t in targets && dep in t.dependencies
    requires Retained(objects, targets, failed, t)
    requires dep in ById(targets) && ById(targets)[dep].key in SourceByName(objects)
    ensures Below(objects, targets, initial, failed + {SourceByName(objects)[ById(targets)[dep].key].id})
  {
    forall s: set<Id> | initial <= s && Closed(objects, targets, s)
      ensures SourceByName(objects)[ById(targets)[dep].key].id in s
    {
      RetainedMonotone(objects, targets, failed, s, t);
      assert Spared(SourceByName(objects), ById(targets), s, dep);
    }
  }

  lemma {:induction false} SourceIsPlanned(objects: seq<Object>, key: string)
    requires key in SourceByName(objects)
    ensures exists i :: 0 <= i < |objects| && objects[i] == SourceByName(objects)[key] && objects[i].key == key
  {
    var n := |objects| - 1;
    if objects[n].key != key {
      SourceIsPlanned(objects[..n], key);
      var i :| 0 <= i < n && objects[..n][i] == SourceByName(objects[..n])[key] && objects[..n][i].key == key;
      assert objects[i] == SourceByName(objects)[key];
    } else {
      assert objects[n] == SourceByName(objects)[key];
    }
  }

  // Protecting the propagated failures is protecting the failures themselves.
  lemma FromPropagated(objects: seq<Object>, targets: seq<Object>, initial: set<Id>, propagated: set<Id>,
      failed: set<Id>)
    requires LeastPropagated(objects, initial, propagated) && LeastClosed(objects, targets, propagated, failed)
    ensures LeastClosed(objects, targets, initial, failed)
  {}

  lemma DependsMonotone(o: Object, small: set<Id>)
    requires Depends(o, small)
    ensures forall large: set<Id> :: small <= large ==> Depends(o, large)
  {
    var id :| id in small && Needs(o, id);
  }

  // ---------------------------------------------------------------------------
  // Main results
  // ---------------------------------------------------------------------------

  lemma {:induction false} AllowedDropsExact(objects: seq<Object>, failed: set<Id>, drops: seq<Object>, d: Object)
    ensures d in AllowedDrops(objects, failed, drops) <==> d in drops && Allowed(objects, failed, d)
  {
    if drops != [] {
      var n := |drops| - 1;
      AllowedDropsExact(objects, failed, drops[..n], d);
      assert drops == drops[..n] + [drops[n]];
    }
  }

  // The target object goes with, or is replaced by, something that is really created.
  ghost predicate Replaced(objects: seq<Object>, targets: seq<Object>, failed: set<Id>, t: Object) {
    || Healthy(SourceByName(objects), t.key, failed)
    || ((t.managed || t.owned) && GoesWithOwner(SourceByName(objects), ById(targets), failed, Owner(targets, t)))
  }

  ghost predicate DistinctKeys(objects: seq<Object>) {
    forall i, j :: 0 <= i < j < |objects| ==> objects[i].key != objects[j].key
  }

  // A remaining drop breaks no retained object: whatever in the target depends on
  // an object of the dropped name is itself replaced, or goes with a replaced owner.
  // This needs the planned object that a drop is checked against (the first of its
  // name) and the one the target graph is checked against (the last) to agree.
  lemma DropHasNoRetainedDependant(objects: seq<Object>, targets: seq<Object>, drops: seq<Object>, failed: set<Id>,
                                   drop: Object, t: Object, dep: Id)
    requires Closed(objects, targets, failed) && drop in AllowedDrops(objects, failed, drops)
    requires Healthy(SourceByName(objects), drop.key, failed)
    requires t in targets && dep in t.dependencies && dep in ById(targets)
             && ById(targets)[dep].key == drop.key
    ensures Replaced(objects, targets, failed, t)
  {
    assert !Spared(SourceByName(objects), ById(targets), failed, dep);
    var i :| 0 <= i < |targets| && targets[i] == t;
    assert !Retained(objects, targets, failed, targets[i]);
  }

  lemma {:induction false} FirstIsLast(objects: seq<Object>, failed: set<Id>, drop: Object)
    requires DistinctKeys(objects) && Allowed(objects, failed, drop)
    ensures Healthy(SourceByName(objects), drop.key, failed)
  {
    var o := FirstNamed(objects, drop.key).value;
    FirstNamedIn(objects, drop.key);
    var k :| 0 <= k < |objects| && objects[k] == o;
    SourceOf(objects, k);
  }

  lemma {:induction false} FirstNamedIn(objects: seq<Object>, key: string)
    requires FirstNamed(objects, key).Some?
    ensures FirstNamed(objects, key).value in objects && FirstNamed(objects, key).value.key == key
  {
    if objects[0].key != key { FirstNamedIn(objects[1..], key); }
  }

  lemma {:induction false} SourceOf(objects: seq<Object>, k: nat)
    requires k < |objects| && forall j :: k < j < |objects| ==> objects[j].key != objects[k].key
    ensures objects[k].key in SourceByName(objects) && SourceByName(objects)[objects[k].key] == objects[k]
  {
    var n := |objects| - 1;
    if k < n { SourceOf(objects[..n], k); }
  }

  // With distinct collision keys every remaining drop is safe.
  lemma DistinctDropsAreSafe(objects: seq<Object>, targets: seq<Object>, drops: seq<Object>, failed: set<Id>,
                             drop: Object, t: Object, dep: Id)
    requires Closed(objects, targets, failed) && drop in AllowedDrops(objects, failed, drops) && DistinctKeys(objects)
    requires t in targets && dep in t.dependencies && dep in ById(targets)
             && ById(targets)[dep].key == drop.key
    ensures Replaced(objects, targets, failed, t)
  {
    AllowedDropsExact(objects, failed, drops, drop);
    FirstIsLast(objects, failed, drop);
    DropHasNoRetainedDependant(objects, targets, drops, failed, drop, t, dep);
  }

  // Without that agreement the guarantee fails. A table and its materialized view log share name and
  // namespace: the table is healthy, the log and a view are withheld, and the retained view depends on the table.
  lemma SharedNameDropsRetainedParent()
    ensures var table := Object("a", "t", true, "t", "", "", [], false, false, 2, []);
            var log := Object("b", "t", false, "t", "t", "a", ["a"], false, false, 7, []);
            var view := Object("v", "v", false, "v", "", "", ["a"], false, false, 6, []);
            var parent, dependant := table.(id := "p"), view.(id := "w", dependencies := ["p"]);
            var objects, targets, failed := [table, view, log], [parent, dependant], {"b", "v"};
            && LeastClosed(objects, targets, failed, failed)
            && parent in AllowedDrops(objects, failed, [parent])
            && !Replaced(objects, targets, failed, dependant)
  {
    var table := Object("a", "t", true, "t", "", "", [], false, false, 2, []);
    var log := Object("b", "t", false, "t", "t", "a", ["a"], false, false, 7, []);
    var view := Object("v", "v", false, "v", "", "", ["a"], false, false, 6, []);
    var parent, dependant := table.(id := "p"), view.(id := "w", dependencies := ["p"]);
    var objects, targets, failed := [table, view, log], [parent, dependant], {"b", "v"};
    assert "a"[0] == 'a' && "b"[0] == 'b' && "p"[0] == 'p' && "t"[0] == 't' && "v"[0] == 'v' && "w"[0] == 'w';
    assert "a" != "b" && "a" != "v" && "t" != "v" && "p" != "w";
    assert objects[..2] == [table, view] && [table, view][..1] == [table] && [table][..0] == [];
    assert SourceByName([table]) == map["t" := table];
    assert SourceByName([table, view]) == map["t" := table, "v" := view];
    assert SourceByName(objects) == map["t" := log, "v" := view];
    assert targets[..1] == [parent] && [parent][..0] == [];
    assert ById([parent]) == map["p" := parent];
    assert ById(targets) == map["p" := parent, "w" := dependant];
    assert AllowedDrops(objects, failed, []) == [];
  }

  function FreshKey(objects: seq<Object>): (key: string)
    ensures forall i :: 0 <= i < |objects| ==> |objects[i].key| < |key|
  {
    if objects == [] then "x" else
    var key := FreshKey(objects[..|objects| - 1]);
    var last := objects[|objects| - 1].key;
    assert forall i :: 0 <= i < |objects| - 1 ==> objects[i] == objects[..|objects| - 1][i];
    if |last| < |key| then key else last + "x"
  }

  // Some retained object still depends on the dropped name.
  ghost predicate Breaks(objects: seq<Object>, targets: seq<Object>, failed: set<Id>, drop: Object) {
    && Closed(objects, targets, failed)
    && exists t: Object, dep: Id :: t in targets && dep in t.dependencies && dep in ById(targets)
                        && ById(targets)[dep].key == drop.key && !Replaced(objects, targets, failed, t)
  }

  // Exactly when an allowed drop is safe against every target graph.
  lemma DropSafeExactly(objects: seq<Object>, failed: set<Id>, drop: Object)
    requires Propagated(objects, failed) && Allowed(objects, failed, drop)
    ensures Healthy(SourceByName(objects), drop.key, failed) <==>
            forall targets :: !Breaks(objects, targets, failed, drop)
  {
    if Healthy(SourceByName(objects), drop.key, failed) {
      forall targets ensures !Breaks(objects, targets, failed, drop) {
        forall t: Object, dep: Id | Closed(objects, targets, failed) && t in targets && dep in t.dependencies
                        && dep in ById(targets) && ById(targets)[dep].key == drop.key
          ensures Replaced(objects, targets, failed, t)
        {
          assert [drop][..0] == [];
          DropHasNoRetainedDependant(objects, targets, [drop], failed, drop, t, dep);
        }
      }
    } else {
      var parent := Object("p", drop.key, false, "", "", "", [], false, false, 0, []);
      var view := Object("v", FreshKey(objects), false, "", "", "", ["p"], false, false, 0, []);
      var targets := [parent, view];
      assert "p" != "v" by { assert "p"[0] != "v"[0]; }
      assert ById([parent]) == map["p" := parent];
      assert ById(targets) == map["p" := parent, "v" := view];
      if view.key in SourceByName(objects) { SourceIsPlanned(objects, view.key); }
      FirstNamedIn(objects, drop.key);
      assert Closed(objects, targets, failed);
      assert !Replaced(objects, targets, failed, view);
      var dep := "p";
      assert targets[1] == view && view.dependencies[0] == dep && dep in ById(targets);
      assert Breaks(objects, targets, failed, drop);
    }
  }

  // The outcome depends on which objects there are and which of several of one name counts, not on how
  // they are listed otherwise.
  lemma OrderIrrelevant(objects: seq<Object>, targets: seq<Object>, objects': seq<Object>, targets': seq<Object>,
                        initial: set<Id>, a: set<Id>, b: set<Id>)
    requires forall o :: o in objects <==> o in objects'
    requires forall o :: o in targets <==> o in targets'
    requires SourceByName(objects) == SourceByName(objects') && ById(targets) == ById(targets')
    requires forall name :: FirstTable(targets, name) == FirstTable(targets', name)
    requires LeastClosed(objects, targets, initial, a) && LeastClosed(objects', targets', initial, b)
    ensures a == b
  {
    SameClosed(objects, targets, objects', targets', a);
    SameClosed(objects', targets', objects, targets, b);
  }

  // In particular, without equal names the order does not matter at all.
  lemma DistinctOrderIrrelevant(objects: seq<Object>, targets: seq<Object>, objects': seq<Object>,
                                targets': seq<Object>, initial: set<Id>, a: set<Id>, b: set<Id>)
    requires forall o :: o in objects <==> o in objects'
    requires forall o :: o in targets <==> o in targets'
    requires DistinctKeys(objects) && DistinctKeys(objects') && DistinctTargets(targets) && DistinctTargets(targets')
    requires LeastClosed(objects, targets, initial, a) && LeastClosed(objects', targets', initial, b)
    ensures a == b
  {
    SameSources(objects, objects');
    SameTargets(targets, targets');
    OrderIrrelevant(objects, targets, objects', targets', initial, a, b);
  }

  ghost predicate DistinctTargets(targets: seq<Object>) {
    && (forall i, j :: 0 <= i < j < |targets| ==> targets[i].id != targets[j].id)
    && (forall i, j :: 0 <= i < j < |targets| && targets[i].isTable && targets[j].isTable ==>
       targets[i].name != targets[j].name)
  }

  lemma SameSources(a: seq<Object>, b: seq<Object>)
    requires forall o :: o in a <==> o in b
    requires DistinctKeys(a) && DistinctKeys(b)
    ensures SourceByName(a) == SourceByName(b)
  {
    forall key | key in SourceByName(a) ensures key in SourceByName(b) && SourceByName(b)[key] == SourceByName(a)[key] {
      SourceIsPlanned(a, key);
      var o := SourceByName(a)[key];
      assert o in a && o in b;
      var k :| 0 <= k < |b| && b[k] == o;
      SourceOf(b, k);
    }
    forall key | key in SourceByName(b) ensures key in SourceByName(a) {
      SourceIsPlanned(b, key);
      var o := SourceByName(b)[key];
      assert o in b && o in a;
      var k :| 0 <= k < |a| && a[k] == o;
      SourceOf(a, k);
    }
  }

  lemma {:induction false} KnownIsListed(targets: seq<Object>, id: Id)
    requires id in ById(targets)
    ensures ById(targets)[id] in targets && ById(targets)[id].id == id
  {
    var n := |targets| - 1;
    if targets[n].id != id { KnownIsListed(targets[..n], id); }
  }

  lemma {:induction false} TargetOf(targets: seq<Object>, k: nat)
    requires k < |targets| && forall j :: k < j < |targets| ==> targets[j].id != targets[k].id
    ensures targets[k].id in ById(targets) && ById(targets)[targets[k].id] == targets[k]
  {
    var n := |targets| - 1;
    if k < n { TargetOf(targets[..n], k); }
  }

  lemma {:induction false} FirstTableOf(targets: seq<Object>, name: string, k: nat)
    requires k < |targets| && targets[k].isTable && targets[k].name == name
    requires forall j :: 0 <= j < k && targets[j].isTable ==> targets[j].name != name
    ensures FirstTable(targets, name) == targets[k].id
  {
    if k > 0 { FirstTableOf(targets[1..], name, k - 1); }
  }

  lemma {:induction false} NoTable(targets: seq<Object>, name: string)
    requires forall o :: o in targets && o.isTable ==> o.name != name
    ensures FirstTable(targets, name) == ""
  {
    if targets != [] {
      assert targets[0] in targets;
      NoTable(targets[1..], name);
    }
  }

  lemma SameTargets(a: seq<Object>, b: seq<Object>)
    requires forall o :: o in a <==> o in b
    requires DistinctTargets(a) && DistinctTargets(b)
    ensures ById(a) == ById(b)
    ensures forall name :: FirstTable(a, name) == FirstTable(b, name)
  {
    forall id | id in ById(a) ensures id in ById(b) && ById(b)[id] == ById(a)[id] {
      KnownIsListed(a, id);
      var k :| 0 <= k < |b| && b[k] == ById(a)[id];
      TargetOf(b, k);
    }
    forall id | id in ById(b) ensures id in ById(a) {
      KnownIsListed(b, id);
      var k :| 0 <= k < |a| && a[k] == ById(b)[id];
      TargetOf(a, k);
    }
    forall name ensures FirstTable(a, name) == FirstTable(b, name) {
      if i :| 0 <= i < |a| && a[i].isTable && a[i].name == name {
        FirstTableOf(a, name, i);
        assert a[i] in a && a[i] in b;
        var k :| 0 <= k < |b| && b[k] == a[i];
        FirstTableOf(b, name, k);
      } else {
        forall o | o in b && o.isTable ensures o.name != name {
          var k :| 0 <= k < |a| && a[k] == o;
        }
        NoTable(a, name);
        NoTable(b, name);
      }
    }
  }

  lemma SameClosed(objects: seq<Object>, targets: seq<Object>, objects': seq<Object>, targets': seq<Object>,
      failed: set<Id>)
    requires forall o :: o in objects' ==> o in objects
    requires forall o :: o in targets' ==> o in targets
    requires SourceByName(objects) == SourceByName(objects') && ById(targets) == ById(targets')
    requires forall name :: FirstTable(targets, name) == FirstTable(targets', name)
    requires Closed(objects, targets, failed)
    ensures Closed(objects', targets', failed)
  {
    SamePropagated(objects, objects', failed);
    forall i, id | 0 <= i < |targets'| && id in targets'[i].dependencies
      && Retained(objects', targets', failed, targets'[i])
      ensures Spared(SourceByName(objects'), ById(targets'), failed, id)
    {
      assert targets'[i] in targets' && targets'[i] in targets;
      var k :| 0 <= k < |targets| && targets[k] == targets'[i];
      SameRetained(objects, targets, objects', targets', failed, targets[k]);
    }
  }

  lemma SamePropagated(objects: seq<Object>, objects': seq<Object>, failed: set<Id>)
    requires forall o :: o in objects' ==> o in objects
    requires Propagated(objects, failed)
    ensures Propagated(objects', failed)
  {
    forall i | 0 <= i < |objects'| && Depends(objects'[i], failed) ensures objects'[i].id in failed {
      assert objects'[i] in objects' && objects'[i] in objects;
      var k :| 0 <= k < |objects| && objects[k] == objects'[i];
    }
  }

  lemma SameRetained(objects: seq<Object>, targets: seq<Object>, objects': seq<Object>, targets': seq<Object>,
                     failed: set<Id>, t: Object)
    requires SourceByName(objects) == SourceByName(objects') && ById(targets) == ById(targets')
    requires forall name :: FirstTable(targets, name) == FirstTable(targets', name)
    ensures Retained(objects, targets, failed, t) == Retained(objects', targets', failed, t)
  {
    assert Owner(targets, t) == Owner(targets', t);
  }
}
