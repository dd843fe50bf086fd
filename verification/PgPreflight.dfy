// Blocking objects of a PostgreSQL to MySQL plan and ordering its tables
// (datamigrate/pgmysql_partial.go, datamigrate/pgmysql_plan.go).
module PgPreflight {
  import opened TableOrder

  datatype Kind = TableKind | ViewKind | ForeignKeyKind | MetadataKind | TargetKind | PermissionKind | ConfigKind
                | OtherKind(name: string)

  datatype Ref = Ref(kind: Kind, table: string, name: string)

  function TableRef(t: Table): Ref { Ref(TableKind, "", t) }

  // A physical foreign key of the target database.
  datatype TargetKey = TargetKey(schema: string, table: string, refSchema: string, refTable: string)

  type Dependencies = map<Ref, seq<Ref>>

  // ---------------------------------------------------------------------------
  // What it means to be blocked
  // ---------------------------------------------------------------------------

  predicate BlockedAt(blocked: set<Ref>, r: Ref) {
    r in blocked || (r.table != "" && TableRef(r.table) in blocked)
  }

  function Next(deps: Dependencies, r: Ref): seq<Ref> { if r in deps then deps[r] else [] }

  ghost predicate Path(deps: Dependencies, p: seq<Ref>) {
    p != [] && forall i :: 0 <= i < |p| - 1 ==> p[i + 1] in Next(deps, p[i])
  }

  // Some object reachable through dependencies is blocked or belongs to a blocked table.
  ghost predicate Blocked(blocked: set<Ref>, deps: Dependencies, r: Ref) {
    exists p :: Path(deps, p) && p[0] == r && BlockedAt(blocked, p[|p| - 1])
  }

  lemma BlockedMonotone(small: set<Ref>, large: set<Ref>, deps: Dependencies, r: Ref)
    requires small <= large && Blocked(small, deps, r)
    ensures Blocked(large, deps, r)
  {
    var p :| Path(deps, p) && p[0] == r && BlockedAt(small, p[|p| - 1]);
    assert BlockedAt(large, p[|p| - 1]);
  }

  lemma BlockedHere(blocked: set<Ref>, deps: Dependencies, r: Ref)
    requires BlockedAt(blocked, r)
    ensures Blocked(blocked, deps, r)
  {
    assert Path(deps, [r]);
  }

  lemma BlockedThrough(blocked: set<Ref>, deps: Dependencies, r: Ref, d: Ref)
    requires d in Next(deps, r) && Blocked(blocked, deps, d)
    ensures Blocked(blocked, deps, r)
  {
    var p :| Path(deps, p) && p[0] == d && BlockedAt(blocked, p[|p| - 1]);
    var q := [r] + p;
    forall i | 0 <= i < |q| - 1 ensures q[i + 1] in Next(deps, q[i]) {
      if i > 0 { assert q[i + 1] == p[i] && q[i] == p[i - 1]; }
    }
    assert Path(deps, q) && q[|q| - 1] == p[|p| - 1];
  }

  // A set closed under dependencies with nothing blocked in it shows its members unblocked.
  lemma {:induction false} ClosedUnblocked(blocked: set<Ref>, deps: Dependencies, seen: set<Ref>, p: seq<Ref>)
    requires forall r :: r in seen ==> !BlockedAt(blocked, r) && forall d :: d in Next(deps, r) ==> d in seen
    requires Path(deps, p) && p[0] in seen
    ensures !BlockedAt(blocked, p[|p| - 1])
  {
    if |p| > 1 {
      assert p[0 + 1] in Next(deps, p[0]);
      ClosedUnblocked(blocked, deps, seen, p[1..]);
    }
  }

  // The references a search can meet.
  ghost predicate Covers(deps: Dependencies, universe: set<Ref>) {
    forall r :: r in universe ==> forall d :: d in Next(deps, r) ==> d in universe
  }

  ghost function Universe(deps: Dependencies): (u: set<Ref>)
    ensures forall r, d :: d in Next(deps, r) ==> d in u
  {
    deps.Keys + set r, i | r in deps && 0 <= i < |deps[r]| :: deps[r][i]
  }

  // Everything seen is unblocked, and all dependencies of what is finished were seen.
  ghost predicate Searched(blocked: set<Ref>, deps: Dependencies, seen: set<Ref>, open: set<Ref>) {
    && (forall r :: r in seen ==> !BlockedAt(blocked, r))
    && (forall r, d :: r in seen && r !in open && d in Next(deps, r) ==> d in seen)
  }

  // Metadata that no single table owns.
  predicate SharedMetadata(r: Ref) {
    r.table == "" && (r.kind.MetadataKind? || r.kind.TargetKind? || r.kind.PermissionKind? || r.kind.ConfigKind?)
  }

  class Preflight {
    var blocked: set<Ref>
    var globalError: bool
    var dependencies: Dependencies
    var tables: seq<Table>
    var validationFKs: seq<ForeignKey>
    var targetSnapshot: seq<TargetKey>
    var targetDependencies: seq<TargetKey>
    const fold: string -> string      // folding of target names
    const targetName: Table -> string // naming policy of the task
    const database: string

    constructor (fold: string -> string, targetName: Table -> string, database: string)
      ensures this.fold == fold && this.targetName == targetName && this.database == database
    {
      this.fold, this.targetName, this.database := fold, targetName, database;
      blocked, globalError, dependencies, tables := {}, false, map[], [];
      validationFKs, targetSnapshot, targetDependencies := [], [], [];
    }

    // A diagnostic blocks a table or view, the table an object belongs to, or the
    // object; unknown shared metadata stops everything.
    method BlockIssue(r: Ref)
      modifies this`blocked, this`globalError
      ensures SharedMetadata(r) ==> globalError && blocked == old(blocked)
      ensures !SharedMetadata(r) ==> globalError == old(globalError) && old(blocked) <= blocked
                                     && forall deps :: Blocked(blocked, deps, r)
      ensures r.kind.TableKind? || r.kind.ViewKind? || (r.table == "" && !SharedMetadata(r)) ==>
                blocked == old(blocked) + {r}
      ensures !r.kind.TableKind? && !r.kind.ViewKind? && r.table != "" ==>
                blocked == old(blocked) + {Ref(TableKind, "", r.table)}
    {
      if r.kind.TableKind? || r.kind.ViewKind? {
        blocked := blocked + {r};
      } else if r.table != "" {
        blocked := blocked + {TableRef(r.table)};
      } else if r.kind.MetadataKind? || r.kind.TargetKind? || r.kind.PermissionKind? || r.kind.ConfigKind? {
        globalError := true;
      } else {
        blocked := blocked + {r};
      }
      if !SharedMetadata(r) {
        forall deps: Dependencies ensures Blocked(blocked, deps, r) { BlockedHere(blocked, deps, r); }
      }
    }

    // Depth-first with one shared set of seen references.
    method BlockedDependency(r: Ref, seen0: set<Ref>, ghost open: set<Ref>, ghost universe: set<Ref>)
      returns (bad: bool, seen: set<Ref>)
      requires Searched(blocked, dependencies, seen0, open)
      requires r in universe && seen0 <= universe && Covers(dependencies, universe)
      ensures bad ==> Blocked(blocked, dependencies, r)
      ensures !bad ==> r in seen && seen0 <= seen <= universe && Searched(blocked, dependencies, seen, open)
      decreases universe - seen0, 1
    {
      seen := seen0;
      if r in blocked {
        BlockedHere(blocked, dependencies, r);
        return true, seen;
      }
      if r in seen { return false, seen; }
      seen := seen + {r};
      if r.table != "" && TableRef(r.table) in blocked {
        BlockedHere(blocked, dependencies, r);
        return true, seen;
      }
      var deps := if r in dependencies then dependencies[r] else [];
      for i := 0 to |deps|
        invariant seen0 + {r} <= seen <= universe
        invariant Searched(blocked, dependencies, seen, open + {r})
        invariant forall j :: 0 <= j < i ==> deps[j] in seen
      {
        assert deps[i] in Next(dependencies, r);
        bad, seen := BlockedDependency(deps[i], seen, open + {r}, universe);
        if bad {
          BlockedThrough(blocked, dependencies, r, deps[i]);
          return;
        }
      }
      bad := false;
    }

    method ObjectBlocked(r: Ref) returns (yes: bool)
      ensures yes <==> Blocked(blocked, dependencies, r)
    {
      ghost var universe := Universe(dependencies) + {r};
      var seen;
      yes, seen := BlockedDependency(r, {}, {}, universe);
      if !yes {
        forall p | Path(dependencies, p) && p[0] == r ensures !BlockedAt(blocked, p[|p| - 1]) {
          ClosedUnblocked(blocked, dependencies, seen, p);
        }
      }
    }

    // ----- protectTargetDependencies -----

    method TargetNames() returns (names: map<string, Table>)
      ensures names == NamesOf(tables, fold, targetName)
    {
      names := map[];
      for i := 0 to |tables|
        invariant names == NamesOf(tables[..i], fold, targetName)
      {
        assert tables[..i + 1][..i] == tables[..i];
        names := names[fold(targetName(tables[i])) := tables[i]];
      }
      assert tables[..|tables|] == tables;
    }

    // Repeats over the target's keys until no planned, unblocked table is referenced
    // from outside the rebuilt ones.
    method ProtectTargetDependencies()
      modifies this`blocked, this`targetDependencies
      ensures var names := NamesOf(tables, fold, targetName);
              && LeastProtected(fold, database, names, targetSnapshot, dependencies, old(blocked), blocked)
              && blocked <= old(blocked) + PlannedRefs(names)
              && forall fk :: fk in targetDependencies <==>
                 fk in old(targetDependencies) && KeyUsable(fold, names, blocked, dependencies, fk)
    {
      var names := TargetNames();
      var changed := true;
      while changed
        invariant old(blocked) <= blocked <= old(blocked) + PlannedRefs(names)
        invariant targetDependencies == old(targetDependencies)
        invariant Forced(fold, database, names, targetSnapshot, dependencies, old(blocked), blocked)
        invariant !changed ==> Protected(fold, database, names, targetSnapshot, dependencies, blocked)
        decreases PlannedRefs(names) - blocked, changed
      {
        ghost var start := blocked;
        changed := ProtectPass(names, old(blocked));
        if changed {
          ghost var r :| r in PlannedRefs(names) && r in blocked && r !in start;
          assert r in PlannedRefs(names) - start && r !in PlannedRefs(names) - blocked;
        }
      }
      targetDependencies := UsableKeys(names);
    }

    method ProtectPass(names: map<string, Table>, ghost initial: set<Ref>) returns (changed: bool)
      requires initial <= blocked <= initial + PlannedRefs(names)
      requires Forced(fold, database, names, targetSnapshot, dependencies, initial, blocked)
      modifies this`blocked
      ensures old(blocked) <= blocked <= initial + PlannedRefs(names)
      ensures Forced(fold, database, names, targetSnapshot, dependencies, initial, blocked)
      ensures changed ==> exists r :: r in PlannedRefs(names) && r in blocked && r !in old(blocked)
      ensures !changed ==>
                blocked == old(blocked) && Protected(fold, database, names, targetSnapshot, dependencies, blocked)
    {
      changed := false;
      for i := 0 to |targetSnapshot|
        invariant old(blocked) <= blocked <= initial + PlannedRefs(names)
        invariant Forced(fold, database, names, targetSnapshot, dependencies, initial, blocked)
        invariant changed ==> exists r :: r in PlannedRefs(names) && r in blocked && r !in old(blocked)
        invariant !changed ==> blocked == old(blocked)
        invariant !changed ==> forall j :: 0 <= j < i ==>
                  Respects(fold, database, names, dependencies, blocked, targetSnapshot[j])
      {
        var hit := CheckKey(names, targetSnapshot[i]);
        if hit {
          ForcedBlock(fold, database, names, targetSnapshot, dependencies, initial, blocked, targetSnapshot[i]);
          var parent := TableRef(names[fold(targetSnapshot[i].refTable)]);
          if parent in blocked { BlockedHere(blocked, dependencies, parent); }
          assert parent in PlannedRefs(names);
          blocked := blocked + {parent};
          changed := true;
        }
      }
    }

    method UsableKeys(names: map<string, Table>) returns (kept: seq<TargetKey>)
      ensures forall fk :: fk in kept <==> fk in targetDependencies && KeyUsable(fold, names, blocked, dependencies, fk)
    {
      kept := [];
      for i := 0 to |targetDependencies|
        invariant forall fk :: fk in kept <==>
                  fk in targetDependencies[..i] && KeyUsable(fold, names, blocked, dependencies, fk)
      {
        var fk := targetDependencies[i];
        assert targetDependencies[..i + 1] == targetDependencies[..i] + [fk];
        var childName := if fold(fk.table) in names then names[fold(fk.table)] else "";
        var parentName := if fold(fk.refTable) in names then names[fold(fk.refTable)] else "";
        var child := ObjectBlocked(Ref(TableKind, "", childName));
        var parent := ObjectBlocked(Ref(TableKind, "", parentName));
        if !child && !parent { kept := kept + [fk]; }
      }
      assert targetDependencies[..|targetDependencies|] == targetDependencies;
    }

    // A planned, unblocked parent with a child that is retained or out of the plan.
    method CheckKey(names: map<string, Table>, fk: TargetKey) returns (hit: bool)
      ensures hit <==> !Respects(fold, database, names, dependencies, blocked, fk)
    {
      if fold(fk.refTable) !in names || fold(fk.refSchema) != fold(database) { return false; }
      var parent := ObjectBlocked(TableRef(names[fold(fk.refTable)]));
      if parent { return false; }
      if fold(fk.table) !in names || fold(fk.schema) != fold(database) { return true; }
      hit := ObjectBlocked(TableRef(names[fold(fk.table)]));
    }

    // ----- orderPGDataTables -----

    // Parents before children, depth first. A failed table keeps its active mark.
    method Visit(n: Table, state0: map<Table, Mark>, out0: seq<Table>, planned: set<Table>, ghost stack: seq<Table>)
      returns (ok: bool, state: map<Table, Mark>, out: seq<Table>)
      requires n in planned && Search(validationFKs, planned, state0, out0, stack)
      requires stack != [] ==> ForeignKey(stack[|stack| - 1], n) in validationFKs
      ensures Search(validationFKs, planned, state, out, stack)
      ensures state0.Keys <= state.Keys && out0 <= out
      ensures if ok then n in out else Bad(validationFKs, planned, n)
      decreases planned - state0.Keys, 1
    {
      state, out := state0, out0;
      if n in state {
        if state[n] == Done { return true, state, out; }
        if n in stack { CycleOnStack(validationFKs, planned, stack, n); }
        return false, state, out;
      }
      state := state[n := Active];
      assert planned - state.Keys == planned - state0.Keys - {n};
      ok, state, out := VisitParents(n, state, out, planned, stack + [n]);
      if ok {
        Finish(validationFKs, planned, state, out, stack, n);
        state := state[n := Done];
        out := out + [n];
      } else {
        Abandon(validationFKs, planned, state, out, stack, n);
      }
    }

    method VisitParents(n: Table, state0: map<Table, Mark>, out0: seq<Table>, planned: set<Table>,
        ghost stack: seq<Table>)
      returns (ok: bool, state: map<Table, Mark>, out: seq<Table>)
      requires stack != [] && stack[|stack| - 1] == n && Search(validationFKs, planned, state0, out0, stack)
      ensures Search(validationFKs, planned, state, out, stack)
      ensures state0.Keys <= state.Keys && out0 <= out
      ensures if ok then forall b :: ForeignKey(n, b) in validationFKs ==> b in out else Bad(validationFKs, planned, n)
      decreases planned - state0.Keys, 2
    {
      state, out := state0, out0;
      for k := 0 to |validationFKs|
        invariant Search(validationFKs, planned, state, out, stack)
        invariant state0.Keys <= state.Keys && out0 <= out
        invariant forall j :: 0 <= j < k && validationFKs[j].child == n ==> validationFKs[j].parent in out
      {
        var fk := validationFKs[k];
        if fk.child == n {
          assert fk == ForeignKey(n, fk.parent);
          if fk.parent !in planned {
            assert Hopeless(validationFKs, planned, [n, fk.parent]);
            return false, state, out;
          }
          ok, state, out := Visit(fk.parent, state, out, planned, stack);
          if !ok {
            BadThrough(validationFKs, planned, n, fk.parent);
            return;
          }
        }
      }
      forall b | ForeignKey(n, b) in validationFKs ensures b in out {
        var j :| 0 <= j < |validationFKs| && validationFKs[j] == ForeignKey(n, b);
      }
      ok := true;
    }

    // The visited tables in order, then the blocked ones as they were listed.
    method OrderDataTables()
      modifies this`tables, this`blocked
      ensures forall t :: TableRef(t) in blocked - old(blocked) ==> t in old(tables)
      ensures forall r :: r in blocked - old(blocked) ==> r.kind.TableKind? && r.table == ""
      ensures forall t :: t in old(tables) && Bad(validationFKs, Listed(old(tables)), t) ==> TableRef(t) in blocked
      ensures forall t :: t in old(tables) && TableRef(t) !in old(blocked) ==>
                (TableRef(t) in blocked <==> Bad(validationFKs, Listed(old(tables)), t))
      ensures forall t :: t in old(tables) && !Blocked(blocked, dependencies, TableRef(t)) ==>
                Once(tables, t)
                && forall i, b :: 0 <= i < |tables| && tables[i] == t && ForeignKey(t, b) in validationFKs ==>
                   b in tables[..i]
      ensures forall t :: t in tables <==> t in old(tables)
    {
      var planned: set<Table> := Listed(tables);
      var state: map<Table, Mark> := map[];
      var out: seq<Table> := [];
      for k := 0 to |tables|
        invariant tables == old(tables) && Search(validationFKs, planned, state, out, [])
        invariant forall j :: 0 <= j < k ==>
                  tables[j] in out || (TableRef(tables[j]) in blocked && Bad(validationFKs, planned, tables[j]))
        invariant old(blocked) <= blocked
        invariant forall r :: r in blocked - old(blocked) ==>
                    r.kind.TableKind? && r.table == "" && r.name in planned && Bad(validationFKs, planned, r.name)
      {
        var ok;
        ok, state, out := Visit(tables[k], state, out, planned, []);
        if !ok { blocked := blocked + {TableRef(tables[k])}; }
      }
      forall t | t in out ensures !Bad(validationFKs, planned, t) { OrderedIsGood(validationFKs, planned, out, t); }
      var rest := BlockedTables();
      ghost var ordered := out;
      Placed(validationFKs, out, rest);
      tables := out + rest;
      forall t | t in old(tables) && !Blocked(blocked, dependencies, TableRef(t))
        ensures t in ordered && t !in rest
      {
        if TableRef(t) in blocked { BlockedHere(blocked, dependencies, TableRef(t)); }
        var j :| 0 <= j < |old(tables)| && old(tables)[j] == t;
      }
      forall t ensures t in tables <==> t in old(tables) {
        if t in old(tables) && t !in ordered {
          var j :| 0 <= j < |old(tables)| && old(tables)[j] == t;
          BlockedHere(blocked, dependencies, TableRef(t));
        }
      }
    }

    method BlockedTables() returns (rest: seq<Table>)
      ensures forall t :: t in rest <==> t in tables && Blocked(blocked, dependencies, TableRef(t))
    {
      rest := [];
      for k := 0 to |tables|
        invariant forall t :: t in rest <==> t in tables[..k] && Blocked(blocked, dependencies, TableRef(t))
      {
        assert tables[..k + 1] == tables[..k] + [tables[k]];
        var yes := ObjectBlocked(TableRef(tables[k]));
        if yes { rest := rest + [tables[k]]; }
      }
      assert tables[..|tables|] == tables;
    }
  }

  datatype Mark = Active | Done

  // Finished tables are ordered; an active table is on the stack or hopeless.
  ghost predicate Search(fks: seq<ForeignKey>, planned: set<Table>, state: map<Table, Mark>, out: seq<Table>,
      stack: seq<Table>) {
    && state.Keys <= planned && Distinct(out) && ParentsFirst(fks, out)
    && (forall t :: t in out <==> t in state && state[t] == Done)
    && (forall t :: t in state && state[t] == Active && t !in stack ==> Bad(fks, planned, t))
    && (forall i :: 0 <= i < |stack| ==> stack[i] in state && state[stack[i]] == Active)
    && (forall i :: 0 <= i < |stack| - 1 ==> ForeignKey(stack[i], stack[i + 1]) in fks)
  }

  ghost predicate Once(s: seq<Table>, t: Table) { t in s && forall i, j :: 0 <= i < j < |s| && s[i] == t ==> s[j] != t }

  // Meeting a table of the stack again closes a cycle.
  lemma CycleOnStack(fks: seq<ForeignKey>, planned: set<Table>, stack: seq<Table>, n: Table)
    requires n in stack && ForeignKey(stack[|stack| - 1], n) in fks
    requires forall i :: 0 <= i < |stack| - 1 ==> ForeignKey(stack[i], stack[i + 1]) in fks
    ensures Bad(fks, planned, n)
  {
    var j :| 0 <= j < |stack| && stack[j] == n;
    var p := stack[j..] + [n];
    assert Walk(fks, stack[j..]);
    WalkExtends(fks, stack[j..], n);
    assert p[0] == p[|p| - 1] && Lasso(p);
    assert Hopeless(fks, planned, p);
  }

  lemma BadThrough(fks: seq<ForeignKey>, planned: set<Table>, n: Table, parent: Table)
    requires ForeignKey(n, parent) in fks && Bad(fks, planned, parent)
    ensures Bad(fks, planned, n)
  {
    var p :| Hopeless(fks, planned, p) && p[0] == parent;
    var q := [n] + p;
    forall i | 0 <= i < |q| - 1 ensures ForeignKey(q[i], q[i + 1]) in fks {
      if i > 0 { assert q[i] == p[i - 1] && q[i + 1] == p[i]; }
    }
    if Lasso(p) {
      var i :| 0 <= i < |p| - 1 && p[i] == p[|p| - 1];
      assert q[i + 1] == q[|q| - 1];
    }
    assert Hopeless(fks, planned, q);
  }

  lemma Finish(fks: seq<ForeignKey>, planned: set<Table>, state: map<Table, Mark>, out: seq<Table>, stack: seq<Table>,
      n: Table)
    requires Search(fks, planned, state, out, stack + [n]) && n !in stack
    requires forall b :: ForeignKey(n, b) in fks ==> b in out
    ensures Search(fks, planned, state[n := Done], out + [n], stack)
  {
    var longer := out + [n];
    assert (stack + [n])[|stack|] == n;
    assert forall i :: 0 <= i < |stack| ==> (stack + [n])[i] == stack[i];
    forall i, b | 0 <= i < |longer| && ForeignKey(longer[i], b) in fks ensures b in longer[..i] {
      if i < |out| { assert longer[..i] == out[..i]; } else { assert longer[..i] == out; }
    }
  }

  lemma Abandon(fks: seq<ForeignKey>, planned: set<Table>, state: map<Table, Mark>, out: seq<Table>, stack: seq<Table>,
      n: Table)
    requires Search(fks, planned, state, out, stack + [n]) && Bad(fks, planned, n)
    ensures Search(fks, planned, state, out, stack)
  {
    assert forall i :: 0 <= i < |stack| ==> (stack + [n])[i] == stack[i];
    forall t | t in state && state[t] == Active && t !in stack ensures Bad(fks, planned, t) {
      if t != n { assert t !in stack + [n]; }
    }
  }

  // A table of the ordered part that is not listed again stays once, behind its parents.
  lemma Placed(fks: seq<ForeignKey>, out: seq<Table>, rest: seq<Table>)
    requires Distinct(out) && ParentsFirst(fks, out)
    ensures forall t :: t in out && t !in rest ==>
              Once(out + rest, t)
              && forall i, b :: 0 <= i < |out + rest| && (out + rest)[i] == t && ForeignKey(t, b) in fks ==>
                 b in (out + rest)[..i]
  {
    forall t | t in out && t !in rest
      ensures Once(out + rest, t)
              && forall i, b :: 0 <= i < |out + rest| && (out + rest)[i] == t && ForeignKey(t, b) in fks ==>
                 b in (out + rest)[..i]
    {
      forall i, b | 0 <= i < |out + rest| && (out + rest)[i] == t && ForeignKey(t, b) in fks
        ensures b in (out + rest)[..i] {
        assert i < |out|;
        assert (out + rest)[..i] == out[..i];
      }
    }
  }

  function NamesOf(tables: seq<Table>, fold: string -> string, targetName: Table -> string): map<string, Table> {
    if tables == [] then map[]
    else NamesOf(tables[..|tables| - 1], fold, targetName)
         [fold(targetName(tables[|tables| - 1])) := tables[|tables| - 1]]
  }

  function NameOf(names: map<string, Table>, key: string): Table { if key in names then names[key] else "" }

  // The table is planned in this database and will be rebuilt.
  ghost predicate Rebuilt(fold: string -> string, database: string, names: map<string, Table>, deps: Dependencies,
                          blocked: set<Ref>, schema: string, table: string) {
    fold(table) in names && fold(schema) == fold(database) && !Blocked(blocked, deps, TableRef(names[fold(table)]))
  }

  // A key into a rebuilt table comes from a rebuilt table.
  ghost predicate Respects(fold: string -> string, database: string, names: map<string, Table>, deps: Dependencies,
                           blocked: set<Ref>, fk: TargetKey) {
    Rebuilt(fold, database, names, deps, blocked, fk.refSchema, fk.refTable) ==>
      Rebuilt(fold, database, names, deps, blocked, fk.schema, fk.table)
  }

  ghost predicate Protected(fold: string -> string, database: string, names: map<string, Table>, keys: seq<TargetKey>,
                            deps: Dependencies, blocked: set<Ref>) {
    forall i :: 0 <= i < |keys| ==> Respects(fold, database, names, deps, blocked, keys[i])
  }

  ghost predicate LeastProtected(fold: string -> string, database: string, names: map<string, Table>,
                                 keys: seq<TargetKey>, deps: Dependencies, initial: set<Ref>, blocked: set<Ref>) {
    && initial <= blocked && Protected(fold, database, names, keys, deps, blocked)
    && Forced(fold, database, names, keys, deps, initial, blocked)
  }

  // Contained in every solution above the initial blocks.
  ghost predicate Forced(fold: string -> string, database: string, names: map<string, Table>, keys: seq<TargetKey>,
                         deps: Dependencies, initial: set<Ref>, blocked: set<Ref>) {
    forall b: set<Ref> :: initial <= b && Solves(fold, database, names, keys, deps, b) ==> blocked <= b
  }

  function PlannedRefs(names: map<string, Table>): set<Ref> { set k | k in names :: TableRef(names[k]) }

  // A respectful set of blocks that lists each planned table it blocks.
  ghost predicate Solves(fold: string -> string, database: string, names: map<string, Table>, keys: seq<TargetKey>,
                         deps: Dependencies, blocked: set<Ref>) {
    && Protected(fold, database, names, keys, deps, blocked)
    && forall key :: key in names && Blocked(blocked, deps, TableRef(names[key])) ==> TableRef(names[key]) in blocked
  }

  // Any such set above the present blocks must block the parent of a disrespected key.
  lemma ForcedBlock(fold: string -> string, database: string, names: map<string, Table>, keys: seq<TargetKey>,
                    deps: Dependencies, initial: set<Ref>, blocked: set<Ref>, fk: TargetKey)
    requires fk in keys && !Respects(fold, database, names, deps, blocked, fk)
    requires Forced(fold, database, names, keys, deps, initial, blocked)
    ensures fold(fk.refTable) in names && !Blocked(blocked, deps, TableRef(names[fold(fk.refTable)]))
    ensures Forced(fold, database, names, keys, deps, initial, blocked + {TableRef(names[fold(fk.refTable)])})
  {
    forall b: set<Ref> | initial <= b && Solves(fold, database, names, keys, deps, b)
      ensures TableRef(names[fold(fk.refTable)]) in b
    {
      var i :| 0 <= i < |keys| && keys[i] == fk;
      assert Respects(fold, database, names, deps, b, keys[i]);
      if fold(fk.table) in names && Blocked(blocked, deps, TableRef(names[fold(fk.table)])) {
        BlockedMonotone(blocked, b, deps, TableRef(names[fold(fk.table)]));
      }
    }
  }

  ghost predicate KeyUsable(fold: string -> string, names: map<string, Table>, blocked: set<Ref>, deps: Dependencies,
      fk: TargetKey) {
    && !Blocked(blocked, deps, TableRef(NameOf(names, fold(fk.table))))
    && !Blocked(blocked, deps, TableRef(NameOf(names, fold(fk.refTable))))
  }
}
