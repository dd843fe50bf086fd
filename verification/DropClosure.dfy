// Which planned tables may be dropped and rebuilt when other tables of the target
// refer to them: datamigrate/oraclemysql.go and datamigrate/migration_target_dependencies.go.
module DropClosure {
  import opened Wrappers

  type Table = string   // a source table
  type Key = string     // a target table name after case folding

  // A foreign key of the target; names as the catalog spells them.
  datatype Relation = Relation(schema: string, table: string, name: string, refSchema: string, refTable: string)

  // ---------------------------------------------------------------------------
  // oracleMySQLExecutableTables: a greatest fixpoint
  // ---------------------------------------------------------------------------

  // Every key into the set comes from inside it, in the same schema.
  ghost predicate SelfContained(fold: string -> string, schema: string, fks: seq<Relation>, ready: set<Key>) {
    forall i :: 0 <= i < |fks| && fold(fks[i].refSchema) == fold(schema) && fold(fks[i].refTable) in ready ==>
      fold(fks[i].schema) == fold(schema) && fold(fks[i].table) in ready
  }

  function Unblocked(names: map<Key, Table>, blocked: set<Table>): set<Key>
  {
    set k | k in names && names[k] !in blocked
  }

  ghost predicate Executable(fold: string -> string, schema: string, fks: seq<Relation>,
                             names: map<Key, Table>, blocked: set<Table>, ready: set<Key>) {
    ready <= Unblocked(names, blocked) && SelfContained(fold, schema, fks, ready)
  }

  // The largest set of unblocked tables that only its own members refer to.
  ghost predicate GreatestExecutable(fold: string -> string, schema: string, fks: seq<Relation>,
                                     names: map<Key, Table>, blocked: set<Table>, ready: set<Key>) {
    && Executable(fold, schema, fks, names, blocked, ready)
    && forall s: set<Key> :: Executable(fold, schema, fks, names, blocked, s) ==> s <= ready
  }

  ghost predicate Above(fold: string -> string, schema: string, fks: seq<Relation>,
                        names: map<Key, Table>, blocked: set<Table>, ready: set<Key>) {
    forall s: set<Key> :: Executable(fold, schema, fks, names, blocked, s) ==> s <= ready
  }

  method ExecutableTables(fold: string -> string, schema: string, names: map<Key, Table>,
                          blocked0: set<Table>, fks: seq<Relation>)
    returns (ready: set<Key>, blocked: set<Table>)
    ensures GreatestExecutable(fold, schema, fks, names, blocked0, ready)
    ensures blocked == blocked0 + set k | k in names && k !in ready :: names[k]
  {
    ready, blocked := names.Keys - (set k | k in names && names[k] in blocked0), blocked0;
    var changed := true;
    while changed
      invariant ready <= Unblocked(names, blocked0)
      invariant Above(fold, schema, fks, names, blocked0, ready)
      invariant blocked == blocked0 + set k | k in names && k !in ready :: names[k]
      invariant !changed ==> SelfContained(fold, schema, fks, ready)
      decreases ready, changed
    {
      changed := false;
      ghost var start := ready;
      for i := 0 to |fks|
        invariant ready <= start && (changed ==> ready < start) && (!changed ==> ready == start)
        invariant Above(fold, schema, fks, names, blocked0, ready)
        invariant blocked == blocked0 + set k | k in names && k !in ready :: names[k]
        invariant !changed ==> forall j ::
                    0 <= j < i && fold(fks[j].refSchema) == fold(schema) && fold(fks[j].refTable) in ready ==>
                    fold(fks[j].schema) == fold(schema) && fold(fks[j].table) in ready
      {
        var fk := fks[i];
        if fold(fk.refSchema) == fold(schema) && fold(fk.refTable) in ready {
          if fold(fk.schema) != fold(schema) || fold(fk.table) !in ready {
            BlockOne(names, blocked0, ready, blocked, fold(fk.refTable));
            blocked := blocked + {names[fold(fk.refTable)]};
            ready := ready - {fold(fk.refTable)};
            changed := true;
          }
        }
      }
    }
  }

  lemma BlockOne(names: map<Key, Table>, initial: set<Table>, ready: set<Key>, blocked: set<Table>, k: Key)
    requires k in names && k in ready
    requires blocked == initial + set x | x in names && x !in ready :: names[x]
    ensures blocked + {names[k]} == initial + set x | x in names && x !in ready - {k} :: names[x]
  {}

  // Nothing that is dropped is referred to by what stays.
  lemma DropsAreUnreferenced(fold: string -> string, schema: string, fks: seq<Relation>,
                             names: map<Key, Table>, blocked: set<Table>, ready: set<Key>, fk: Relation)
    requires GreatestExecutable(fold, schema, fks, names, blocked, ready)
    requires fk in fks && fold(fk.refSchema) == fold(schema) && fold(fk.refTable) in ready
    ensures fold(fk.table) in ready && names[fold(fk.table)] !in blocked
  {
    var i :| 0 <= i < |fks| && fks[i] == fk;
  }

  // ---------------------------------------------------------------------------
  // protectRetainedMigrationTables: a least fixpoint
  // ---------------------------------------------------------------------------

  datatype Snapshot = Snapshot(schema: string, foldNames: bool, relations: seq<Relation>)

  predicate Complete(r: Relation)
  {
    r.schema != "" && r.table != "" && r.name != "" && r.refSchema != "" && r.refTable != ""
  }

  function Folded(lower: string -> string, s: Snapshot, name: string): string
  {
    if s.foldNames then lower(name) else name
  }

  // The planned tables that share a target name.
  ghost predicate Named(lower: string -> string, s: Snapshot, scope: seq<Table>, targetName: map<Table, string>,
      name: string, t: Table) {
    t in scope && t in targetName && Folded(lower, s, targetName[t]) == Folded(lower, s, name)
  }

  // The referring table is rebuilt as well: it is planned, and none that goes by its name is held back.
  ghost predicate ChildRebuilt(lower: string -> string, s: Snapshot, scope: seq<Table>, targetName: map<Table, string>,
                               held: set<Table>, dep: Relation) {
    && Folded(lower, s, dep.schema) == Folded(lower, s, s.schema)
    && (exists c :: Named(lower, s, scope, targetName, dep.table, c))
    && (forall c :: Named(lower, s, scope, targetName, dep.table, c) ==> c !in held)
  }

  // A table that a retained one refers to is held back, unless it was rebuilt already.
  ghost predicate Holds(lower: string -> string, s: Snapshot, scope: seq<Table>, targetName: map<Table, string>,
                        completed: set<Table>, held: set<Table>, dep: Relation) {
    Folded(lower, s, dep.refSchema) == Folded(lower, s, s.schema)
    && !ChildRebuilt(lower, s, scope, targetName, held, dep) ==>
      forall parent :: Named(lower, s, scope, targetName, dep.refTable, parent) ==>
        parent in completed || parent in held
  }

  ghost predicate Closed(lower: string -> string, s: Snapshot, scope: seq<Table>, targetName: map<Table, string>,
                         completed: set<Table>, held: set<Table>) {
    forall i :: 0 <= i < |s.relations| ==> Holds(lower, s, scope, targetName, completed, held, s.relations[i])
  }

  ghost predicate LeastClosed(lower: string -> string, s: Snapshot, scope: seq<Table>, targetName: map<Table, string>,
                              completed: set<Table>, initial: set<Table>, held: set<Table>) {
    && initial <= held && Closed(lower, s, scope, targetName, completed, held)
    && Inevitable(lower, s, scope, targetName, completed, initial, held)
  }

  ghost predicate Inevitable(lower: string -> string, s: Snapshot, scope: seq<Table>, targetName: map<Table, string>,
                             completed: set<Table>, initial: set<Table>, held: set<Table>) {
    forall h: set<Table> :: initial <= h && Closed(lower, s, scope, targetName, completed, h) ==> held <= h
  }

  // More tables held back means fewer children rebuilt.
  lemma RebuiltAntitone(lower: string -> string, s: Snapshot, scope: seq<Table>, targetName: map<Table, string>,
                        small: set<Table>, large: set<Table>, dep: Relation)
    requires small <= large && ChildRebuilt(lower, s, scope, targetName, large, dep)
    ensures ChildRebuilt(lower, s, scope, targetName, small, dep)
  {}

  lemma MustHold(lower: string -> string, s: Snapshot, scope: seq<Table>, targetName: map<Table, string>,
                 completed: set<Table>, initial: set<Table>, held: set<Table>, dep: Relation, parent: Table)
    requires Inevitable(lower, s, scope, targetName, completed, initial, held)
    requires dep in s.relations && Folded(lower, s, dep.refSchema) == Folded(lower, s, s.schema)
    requires !ChildRebuilt(lower, s, scope, targetName, held, dep)
    requires Named(lower, s, scope, targetName, dep.refTable, parent) && parent !in completed
    ensures Inevitable(lower, s, scope, targetName, completed, initial, held + {parent})
  {
    forall h: set<Table> | initial <= h && Closed(lower, s, scope, targetName, completed, h) ensures parent in h {
      var i :| 0 <= i < |s.relations| && s.relations[i] == dep;
      assert Holds(lower, s, scope, targetName, completed, h, s.relations[i]);
      if ChildRebuilt(lower, s, scope, targetName, h, dep) {
        RebuiltAntitone(lower, s, scope, targetName, held, h, dep);
      }
    }
  }

  method Fold(lower: string -> string, s: Snapshot, name: string) returns (folded: string)
    ensures folded == Folded(lower, s, name)
  {
    folded := name;
    if s.foldNames { folded := lower(name); }
  }

  method InSchema(lower: string -> string, s: Snapshot, schema: string) returns (yes: bool)
    ensures yes <==> Folded(lower, s, schema) == Folded(lower, s, s.schema)
  {
    var found := Fold(lower, s, schema);
    var own := Fold(lower, s, s.schema);
    yes := found == own;
  }

  class Tables {
    const scope: seq<Table>
    const targetName: map<Table, string>
    const completed: set<Table>
    var retained: set<Table>   // blocked when the check begins
    var blocked: set<Table>    // the task's blocked tables

    constructor (scope: seq<Table>, targetName: map<Table, string>, completed: set<Table>, retained: set<Table>,
        blocked: set<Table>)
      requires forall t :: t in scope ==> t in targetName
      ensures this.scope == scope && this.targetName == targetName && this.completed == completed
      ensures this.retained == retained && this.blocked == blocked
    {
      this.scope, this.targetName, this.completed, this.retained, this.blocked :=
        scope, targetName, completed, retained, blocked;
    }

    // The planned tables that go by a folded name.
    method TablesNamed(lower: string -> string, s: Snapshot, name: string) returns (found: seq<Table>)
      requires forall t :: t in scope ==> t in targetName
      ensures forall t :: t in found <==> Named(lower, s, scope, targetName, name, t)
    {
      found := [];
      var wanted := Fold(lower, s, name);
      for i := 0 to |scope|
        invariant forall t :: t in found <==> t in scope[..i] && Named(lower, s, scope, targetName, name, t)
      {
        assert scope[..i + 1] == scope[..i] + [scope[i]];
        assert scope[i] in scope;
        var folded := Fold(lower, s, targetName[scope[i]]);
        if folded == wanted { found := found + [scope[i]]; }
      }
      assert scope[..|scope|] == scope;
    }

    method CheckChild(lower: string -> string, s: Snapshot, dep: Relation) returns (rebuilt: bool)
      requires forall t :: t in scope ==> t in targetName
      ensures rebuilt <==> ChildRebuilt(lower, s, scope, targetName, retained + blocked, dep)
    {
      var children := TablesNamed(lower, s, dep.table);
      var inside := InSchema(lower, s, dep.schema);
      if !inside || children == [] {
        forall c | Named(lower, s, scope, targetName, dep.table, c) ensures c in children {}
        return false;
      }
      assert children[0] in children;
      for k := 0 to |children|
        invariant forall j :: 0 <= j < k ==> children[j] !in retained + blocked
      {
        if children[k] in retained || children[k] in blocked {
          assert children[k] in children;
          return false;
        }
      }
      rebuilt := true;
    }

    // One relation of the target: its parents are blocked unless the child is rebuilt too.
    method Block(lower: string -> string, s: Snapshot, dep: Relation, ghost initial: set<Table>) returns (changed: bool)
      requires forall t :: t in scope ==> t in targetName
      requires dep in s.relations && Inevitable(lower, s, scope, targetName, completed, initial, retained + blocked)
      modifies this`blocked
      ensures Inevitable(lower, s, scope, targetName, completed, initial, retained + blocked)
      ensures old(blocked) <= blocked && forall t :: t in blocked - old(blocked) ==> t in scope
      ensures changed ==> exists t :: t in scope && t in blocked - old(blocked) && t !in retained
      ensures !changed ==>
                blocked == old(blocked) && Holds(lower, s, scope, targetName, completed, retained + blocked, dep)
    {
      changed := false;
      var inside := InSchema(lower, s, dep.refSchema);
      if !inside { return; }
      var rebuilt := CheckChild(lower, s, dep);
      if rebuilt { return; }
      var parents := TablesNamed(lower, s, dep.refTable);
      for k := 0 to |parents|
        invariant Inevitable(lower, s, scope, targetName, completed, initial, retained + blocked)
        invariant old(blocked) <= blocked && forall t :: t in blocked - old(blocked) ==> t in scope
        invariant changed ==> exists t :: t in scope && t in blocked - old(blocked) && t !in retained
        invariant !changed ==> blocked == old(blocked)
        invariant !ChildRebuilt(lower, s, scope, targetName, retained + blocked, dep)
        invariant forall j :: 0 <= j < k ==> parents[j] in completed || parents[j] in retained + blocked
      {
        var parent := parents[k];
        if parent !in completed && parent !in retained && parent !in blocked {
          assert parent in parents;
          MustHold(lower, s, scope, targetName, completed, initial, retained + blocked, dep, parent);
          ghost var before := retained + blocked;
          blocked := blocked + {parent};
          assert retained + blocked == before + {parent};
          if ChildRebuilt(lower, s, scope, targetName, retained + blocked, dep) {
            RebuiltAntitone(lower, s, scope, targetName, before, retained + blocked, dep);
          }
          changed := true;
        }
      }
    }

    // The check is made only when some table is held back and another could still be dropped; it fails exactly if
    // it is made and the catalog could not be read completely.
    method Protect(lower: string -> string, inspected: Option<Snapshot>) returns (ok: bool)
      requires forall t :: t in scope ==> t in targetName
      modifies this`blocked
      ensures old(blocked) <= blocked
      ensures !ok ==> blocked == old(blocked)
      ensures ok <==> !Needed(scope, retained, completed) || Usable(inspected)
      ensures (forall t :: t in scope ==> t !in retained) ==> ok && blocked == old(blocked)
      ensures ok && inspected.Some? && (exists t :: t in scope && t in retained) ==>
                LeastClosed(lower, inspected.value, scope, targetName, completed, retained + old(blocked),
                  retained + blocked)
      ensures ok && (exists t :: t in scope && t in retained)
              && (exists t :: t in scope && t !in retained && t !in completed) ==>
                inspected.Some? && inspected.value.schema != ""
                && forall r :: r in inspected.value.relations ==> Complete(r)
    {
      var held, healthy := false, false;
      for i := 0 to |scope|
        invariant held <==> exists j :: 0 <= j < i && scope[j] in retained
        invariant healthy <==> exists j :: 0 <= j < i && scope[j] !in retained && scope[j] !in completed
      {
        if scope[i] in retained { held := true; }
        else if scope[i] !in completed { healthy := true; }
      }
      if !held { return true; }
      if !healthy {
        // Nothing is left to drop: every planned table is held back or done.
        if inspected.Some? { AllHeld(lower, inspected.value, scope, targetName, completed, retained, blocked); }
        return true;
      }
      if inspected.None? || inspected.value.schema == "" { return false; }
      var s := inspected.value;
      for i := 0 to |s.relations|
        invariant forall j :: 0 <= j < i ==> Complete(s.relations[j])
      {
        var r := s.relations[i];
        if r.schema == "" || r.table == "" || r.name == "" || r.refSchema == "" || r.refTable == "" {
          assert r in s.relations && !Complete(r);
          return false;
        }
      }
      ClosureLoop(lower, s);
      ok := true;
    }

    method ClosureLoop(lower: string -> string, s: Snapshot)
      requires forall t :: t in scope ==> t in targetName
      modifies this`blocked
      ensures old(blocked) <= blocked
      ensures LeastClosed(lower, s, scope, targetName, completed, retained + old(blocked), retained + blocked)
    {
      ghost var initial := retained + blocked;
      ghost var planned := set t | t in scope;
      var changed := true;
      while changed
        invariant old(blocked) <= blocked
        invariant Inevitable(lower, s, scope, targetName, completed, initial, retained + blocked)
        invariant !changed ==> Closed(lower, s, scope, targetName, completed, retained + blocked)
        decreases planned - blocked, changed
      {
        changed := false;
        ghost var start := blocked;
        for i := 0 to |s.relations|
          invariant start <= blocked && (!changed ==> blocked == start)
                    && (changed ==> planned - blocked < planned - start)
          invariant Inevitable(lower, s, scope, targetName, completed, initial, retained + blocked)
          invariant !changed ==> forall j :: 0 <= j < i ==>
                    Holds(lower, s, scope, targetName, completed, retained + blocked, s.relations[j])
        {
          ghost var before := blocked;
          var hit := Block(lower, s, s.relations[i], initial);
          if hit {
            ghost var t :| t in scope && t in blocked - before && t !in retained;
            assert t in planned - before && t !in planned - blocked;
            changed := true;
          }
        }
      }
    }
  }

  // A table is held back, and another could still be dropped.
  ghost predicate Needed(scope: seq<Table>, retained: set<Table>, completed: set<Table>) {
    (exists t :: t in scope && t in retained) && exists t :: t in scope && t !in retained && t !in completed
  }

  // The catalog was read, and names every end of every key.
  predicate Usable(inspected: Option<Snapshot>) {
    inspected.Some? && inspected.value.schema != "" && forall r :: r in inspected.value.relations ==> Complete(r)
  }

  lemma AllHeld(lower: string -> string, s: Snapshot, scope: seq<Table>, targetName: map<Table, string>,
                completed: set<Table>, retained: set<Table>, blocked: set<Table>)
    requires forall j :: 0 <= j < |scope| ==> scope[j] in retained || scope[j] in completed
    ensures LeastClosed(lower, s, scope, targetName, completed, retained + blocked, retained + blocked)
  {}

  // Afterwards no table that may still be dropped is referred to by one that stays.
  lemma RetainedReferNothing(lower: string -> string, s: Snapshot, scope: seq<Table>, targetName: map<Table, string>,
                             completed: set<Table>, held: set<Table>, dep: Relation, parent: Table)
    requires Closed(lower, s, scope, targetName, completed, held) && dep in s.relations
    requires Folded(lower, s, dep.refSchema) == Folded(lower, s, s.schema)
    requires Named(lower, s, scope, targetName, dep.refTable, parent) && parent !in completed && parent !in held
    ensures ChildRebuilt(lower, s, scope, targetName, held, dep)
  {
    var i :| 0 <= i < |s.relations| && s.relations[i] == dep;
    assert Holds(lower, s, scope, targetName, completed, held, s.relations[i]);
  }

  // ---------------------------------------------------------------------------
  // The tables the check is about
  // ---------------------------------------------------------------------------

  // Roots that the partition preflight looked at: whether it blocked them, and under which target name.
  datatype Partitions = Partitions(blocked: map<Table, bool>, target: map<Table, string>)

  predicate BlockedRoot(partitions: Option<Partitions>, t: Table) {
    partitions.Some? && t in partitions.value.blocked && partitions.value.blocked[t]
  }

  function NameOf(objName: Table -> string, partitions: Option<Partitions>, t: Table): string {
    if BlockedRoot(partitions, t) && t in partitions.value.target && partitions.value.target[t] != ""
    then partitions.value.target[t] else objName(t)
  }

  // The planned tables and every blocked partition root, also one that left the plan. Retained are those
  // that are blocked on either side.
  ghost predicate ScopeOf(tables: seq<Table>, objName: Table -> string, partitions: Option<Partitions>,
                          blocked: set<Table>, scope: seq<Table>, names: map<Table, string>, retained: set<Table>) {
    && tables <= scope
    && (forall t :: t in scope <==> t in tables || BlockedRoot(partitions, t))
    && (forall t :: t in names <==> t in scope)
    && (forall t :: t in scope ==> names[t] == NameOf(objName, partitions, t))
    && retained == set t | t in scope && (BlockedRoot(partitions, t) || t in blocked)
  }

  // Blocked roots outside the rest have been added.
  ghost predicate RootsAdded(tables: seq<Table>, objName: Table -> string, partitions: Partitions, blocked: set<Table>,
                             rest: set<Table>, scope: seq<Table>, names: map<Table, string>, retained: set<Table>) {
    && tables <= scope
    && (forall t :: t in scope <==> t in tables || (BlockedRoot(Some(partitions), t) && t !in rest))
    && (forall t :: t in names <==> t in scope)
    && (forall t :: t in names ==> names[t] == if t in rest then objName(t) else NameOf(objName, Some(partitions), t))
    && retained == set t | t in scope && ((BlockedRoot(Some(partitions), t) && t !in rest) || t in blocked)
  }

  lemma RootAdded(tables: seq<Table>, objName: Table -> string, partitions: Partitions, blocked: set<Table>,
                  rest: set<Table>, scope: seq<Table>, names: map<Table, string>, retained: set<Table>, t: Table)
    requires RootsAdded(tables, objName, partitions, blocked, rest, scope, names, retained) && t in rest
    requires BlockedRoot(Some(partitions), t)
    ensures RootsAdded(tables, objName, partitions, blocked, rest - {t}, if t in names then scope else scope + [t],
                       names[t := NameOf(objName, Some(partitions), t)], retained + {t})
  {}

  lemma RootPassed(tables: seq<Table>, objName: Table -> string, partitions: Partitions, blocked: set<Table>,
                   rest: set<Table>, scope: seq<Table>, names: map<Table, string>, retained: set<Table>, t: Table)
    requires RootsAdded(tables, objName, partitions, blocked, rest, scope, names, retained) && t in rest
    requires !BlockedRoot(Some(partitions), t)
    ensures RootsAdded(tables, objName, partitions, blocked, rest - {t}, scope, names, retained)
  {}

  method TaskScope(tables: seq<Table>, objName: Table -> string, partitions: Option<Partitions>, blocked: set<Table>)
    returns (scope: seq<Table>, names: map<Table, string>, retained: set<Table>)
    ensures ScopeOf(tables, objName, partitions, blocked, scope, names, retained)
  {
    scope, names, retained := tables, map[], {};
    for i := 0 to |tables|
      invariant names == map t | t in tables[..i] :: objName(t)
      invariant retained == set t | t in tables[..i] && t in blocked
    {
      assert tables[..i + 1] == tables[..i] + [tables[i]];
      names := names[tables[i] := objName(tables[i])];
      if tables[i] in blocked { retained := retained + {tables[i]}; }
    }
    assert tables[..|tables|] == tables;
    if partitions.None? { return; }
    var rest := partitions.value.blocked.Keys;
    while rest != {}
      invariant rest <= partitions.value.blocked.Keys
      invariant RootsAdded(tables, objName, partitions.value, blocked, rest, scope, names, retained)
      decreases rest
    {
      var t :| t in rest;
      if partitions.value.blocked[t] {
        RootAdded(tables, objName, partitions.value, blocked, rest, scope, names, retained, t);
        if t !in names { scope := scope + [t]; }
        var name := objName(t);
        if t in partitions.value.target && partitions.value.target[t] != "" { name := partitions.value.target[t]; }
        names, retained := names[t := name], retained + {t};
      } else {
        RootPassed(tables, objName, partitions.value, blocked, rest, scope, names, retained, t);
      }
      rest := rest - {t};
    }
  }

  // The whole check. Runs that only move data, or rebuild chosen objects, drop no table and are exempt.
  method ProtectRetained(lower: string -> string, exempt: bool, tables: seq<Table>, objName: Table -> string,
                         partitions: Option<Partitions>, completed: set<Table>, blocked0: set<Table>,
                         inspected: Option<Snapshot>)
    returns (ok: bool, blocked: set<Table>, ghost scope: seq<Table>, ghost names: map<Table, string>,
             ghost retained: set<Table>)
    ensures blocked0 <= blocked && (exempt || !ok ==> blocked == blocked0) && (exempt ==> ok)
    ensures !exempt ==> ScopeOf(tables, objName, partitions, blocked0, scope, names, retained)
    ensures !exempt && retained == {} ==> ok && blocked == blocked0
    ensures !exempt ==> (ok <==> !Needed(scope, retained, completed) || Usable(inspected))
    ensures !exempt && ok && retained != {} && inspected.Some? ==>
              LeastClosed(lower, inspected.value, scope, names, completed, retained + blocked0, retained + blocked)
    ensures !exempt && ok && retained != {} && (exists t :: t in scope && t !in retained && t !in completed) ==>
              inspected.Some? && inspected.value.schema != ""
              && forall r :: r in inspected.value.relations ==> Complete(r)
  {
    if exempt { return true, blocked0, [], map[], {}; }
    var all, named, held := TaskScope(tables, objName, partitions, blocked0);
    scope, names, retained := all, named, held;
    var check := new Tables(all, named, completed, held, blocked0);
    ok := check.Protect(lower, inspected);
    blocked := check.blocked;
    assert forall t :: t in held ==> t in all;
  }
}
