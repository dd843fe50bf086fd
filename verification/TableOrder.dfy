// Foreign keys between tables as a graph, and the round-based data order of
// datamigrate/sqlserver_run.go.
module TableOrder {
  type Table = string

  datatype ForeignKey = ForeignKey(child: Table, parent: Table)

  // ---------------------------------------------------------------------------
  // Walks from children to parents
  // ---------------------------------------------------------------------------

  ghost predicate Walk(fks: seq<ForeignKey>, p: seq<Table>) {
    p != [] && forall i :: 0 <= i < |p| - 1 ==> ForeignKey(p[i], p[i + 1]) in fks
  }

  // The walk ends at a table it already passed.
  ghost predicate Lasso(p: seq<Table>) {
    exists i :: 0 <= i < |p| - 1 && p[i] == p[|p| - 1]
  }

  // A walk shows that its first table cannot be ordered: it runs into a cycle, or leaves the plan.
  ghost predicate Hopeless(fks: seq<ForeignKey>, planned: set<Table>, p: seq<Table>) {
    Walk(fks, p) && (Lasso(p) || p[|p| - 1] !in planned)
  }

  ghost predicate Bad(fks: seq<ForeignKey>, planned: set<Table>, t: Table) {
    exists p :: Hopeless(fks, planned, p) && p[0] == t
  }

  // The same, where keys to tables outside the list do not matter.
  ghost predicate ReachesCycle(fks: seq<ForeignKey>, tables: set<Table>, t: Table) {
    exists p :: Walk(fks, p) && Lasso(p) && p[0] == t && Inside(tables, p)
  }

  ghost predicate Inside(tables: set<Table>, p: seq<Table>) { forall i :: 0 <= i < |p| ==> p[i] in tables }

  // Every table of the list comes after all of its parents, which are there.
  ghost predicate ParentsFirst(fks: seq<ForeignKey>, out: seq<Table>) {
    forall i, b :: 0 <= i < |out| && ForeignKey(out[i], b) in fks ==> b in out[..i]
  }

  ghost predicate Distinct(out: seq<Table>) {
    forall i, j :: 0 <= i < j < |out| ==> out[i] != out[j]
  }

  // Along a walk through an ordered list positions fall.
  lemma {:induction false} WalkDescends(fks: seq<ForeignKey>, out: seq<Table>, p: seq<Table>, i: nat,
      k: nat) returns (j: nat)
    requires ParentsFirst(fks, out) && Walk(fks, p) && i < |out| && out[i] == p[0] && k < |p|
    ensures j <= i && out[j] == p[k] && (k > 0 ==> j < i)
  {
    if k == 0 {
      j := i;
    } else {
      j := WalkDescends(fks, out, p, i, k - 1);
      assert ForeignKey(p[k - 1], p[k]) in fks;
      var m :| 0 <= m < j && out[..j][m] == p[k];
      j := m;
    }
  }

  // An ordered list of distinct planned tables contains none that is bad.
  lemma OrderedIsGood(fks: seq<ForeignKey>, planned: set<Table>, out: seq<Table>, t: Table)
    requires ParentsFirst(fks, out) && Distinct(out) && t in out
    requires forall x :: x in out ==> x in planned
    ensures !Bad(fks, planned, t)
  {
    forall p | Hopeless(fks, planned, p) && p[0] == t ensures false {
      var i :| 0 <= i < |out| && out[i] == t;
      var last := WalkDescends(fks, out, p, i, |p| - 1);
      assert out[last] in planned;
      var k :| 0 <= k < |p| - 1 && p[k] == p[|p| - 1];
      var j := WalkDescends(fks, out, p, i, k);
      assert Walk(fks, p[k..]);
      var again := WalkDescends(fks, out, p[k..], j, |p| - 1 - k);
    }
  }

  // On a closed key list both notions of a blocked table agree.
  lemma SameBlocked(fks: seq<ForeignKey>, tables: set<Table>, t: Table)
    requires t in tables && forall fk :: fk in fks ==> fk.child in tables && fk.parent in tables
    ensures Bad(fks, tables, t) <==> ReachesCycle(fks, tables, t)
  {
    forall p | Walk(fks, p) && p[0] in tables ensures Inside(tables, p) { StaysInside(fks, tables, p); }
    if Bad(fks, tables, t) {
      var p :| Hopeless(fks, tables, p) && p[0] == t;
      assert Walk(fks, p) && Lasso(p) && Inside(tables, p);
    }
    if ReachesCycle(fks, tables, t) {
      var p :| Walk(fks, p) && Lasso(p) && p[0] == t && Inside(tables, p);
      assert Hopeless(fks, tables, p);
    }
  }

  lemma StaysInside(fks: seq<ForeignKey>, tables: set<Table>, p: seq<Table>)
    requires Walk(fks, p) && p[0] in tables && forall fk :: fk in fks ==> fk.child in tables && fk.parent in tables
    ensures Inside(tables, p)
  {
    forall i | 0 <= i < |p| ensures p[i] in tables {
      if i > 0 { assert ForeignKey(p[i - 1], p[i]) in fks; }
    }
  }

  // ---------------------------------------------------------------------------
  // Rounds
  // ---------------------------------------------------------------------------

  ghost predicate Waits(fks: seq<ForeignKey>, remaining: set<Table>, t: Table) {
    exists k :: 0 <= k < |fks| && fks[k].child == t && fks[k].parent in remaining
  }

  // If every remaining table waits for another one, each walks into a cycle among them.
  lemma {:induction false} StuckReachesCycle(fks: seq<ForeignKey>, remaining: set<Table>,
      p: seq<Table>) returns (q: seq<Table>)
    requires forall t :: t in remaining ==> Waits(fks, remaining, t)
    requires Walk(fks, p) && Inside(remaining, p) && Distinct(p)
    ensures Walk(fks, q) && Lasso(q) && Inside(remaining, q) && q[0] == p[0]
    decreases remaining - Listed(p)
  {
    var next := NextWaiting(fks, remaining, p);
    q := p + [next];
    if next in p {
      var i :| 0 <= i < |p| && p[i] == next;
      assert q[i] == q[|q| - 1];
    } else {
      assert next in Listed(q) && next !in Listed(p);
      assert Listed(p) <= Listed(q);
      DistinctExtends(p, next);
      q := StuckReachesCycle(fks, remaining, q);
    }
  }

  lemma DistinctExtends(p: seq<Table>, next: Table)
    requires Distinct(p) && next !in p
    ensures Distinct(p + [next])
  {}

  lemma WalkExtends(fks: seq<ForeignKey>, p: seq<Table>, next: Table)
    requires Walk(fks, p) && ForeignKey(p[|p| - 1], next) in fks
    ensures Walk(fks, p + [next])
  {
    var q := p + [next];
    forall i | 0 <= i < |q| - 1 ensures ForeignKey(q[i], q[i + 1]) in fks {
      if i < |p| - 1 { assert q[i] == p[i] && q[i + 1] == p[i + 1]; }
    }
  }

  lemma NextWaiting(fks: seq<ForeignKey>, remaining: set<Table>, p: seq<Table>) returns (next: Table)
    requires Walk(fks, p) && Inside(remaining, p) && Waits(fks, remaining, p[|p| - 1])
    ensures next in remaining && Walk(fks, p + [next]) && Inside(remaining, p + [next])
  {
    var last := p[|p| - 1];
    var k :| 0 <= k < |fks| && fks[k].child == last && fks[k].parent in remaining;
    next := fks[k].parent;
    assert ForeignKey(last, next) == fks[k] && fks[k] in fks;
    WalkExtends(fks, p, next);
  }

  // A parent in the list, and not ordered yet, holds a table back.
  method Ready(fks: seq<ForeignKey>, remaining: set<Table>, t: Table) returns (ready: bool)
    ensures ready <==> !Waits(fks, remaining, t)
  {
    for k := 0 to |fks|
      invariant forall j :: 0 <= j < k ==> !(fks[j].child == t && fks[j].parent in remaining)
    {
      if fks[k].child == t && fks[k].parent in remaining { return false; }
    }
    ready := true;
  }

  // Parents first among the listed tables.
  ghost predicate ListedParentsFirst(fks: seq<ForeignKey>, tables: set<Table>, out: seq<Table>) {
    forall i, b :: 0 <= i < |out| && ForeignKey(out[i], b) in fks && b in tables ==> b in out[..i]
  }

  ghost predicate Progressing(fks: seq<ForeignKey>, tables: set<Table>, remaining: set<Table>, ordered: seq<Table>) {
    && Distinct(ordered) && ListedParentsFirst(fks, tables, ordered)
    && remaining <= tables
    && (forall t :: t in tables ==> (t in ordered <==> t !in remaining))
    && (forall t :: t in ordered ==> t in tables)
  }

  lemma TakeReady(fks: seq<ForeignKey>, tables: set<Table>, remaining: set<Table>, ordered: seq<Table>, t: Table)
    requires Progressing(fks, tables, remaining, ordered) && t in remaining && !Waits(fks, remaining, t)
    ensures Progressing(fks, tables, remaining - {t}, ordered + [t])
  {
    var longer := ordered + [t];
    forall i, b | 0 <= i < |longer| && ForeignKey(longer[i], b) in fks && b in tables
      ensures b in longer[..i]
    {
      if i < |ordered| {
        assert longer[..i] == ordered[..i] && longer[i] == ordered[i];
      } else {
        var k :| 0 <= k < |fks| && fks[k] == ForeignKey(t, b);
        assert longer[..i] == ordered && b !in remaining;
      }
    }
  }

  method Pass(tables: seq<Table>, fks: seq<ForeignKey>, remaining0: set<Table>, ordered0: seq<Table>)
    returns (remaining: set<Table>, ordered: seq<Table>, progress: bool)
    requires Progressing(fks, Listed(tables), remaining0, ordered0)
    ensures Progressing(fks, Listed(tables), remaining, ordered)
    ensures progress ==> remaining < remaining0
    ensures !progress ==> remaining == remaining0 && forall t :: t in remaining ==> Waits(fks, remaining, t)
  {
    remaining, ordered, progress := remaining0, ordered0, false;
    for k := 0 to |tables|
      invariant Progressing(fks, Listed(tables), remaining, ordered)
      invariant if progress then remaining < remaining0 else remaining == remaining0
      invariant !progress ==> forall j :: 0 <= j < k && tables[j] in remaining ==> Waits(fks, remaining, tables[j])
    {
      if tables[k] in remaining {
        var ready := Ready(fks, remaining, tables[k]);
        if ready {
          TakeReady(fks, Listed(tables), remaining, ordered, tables[k]);
          ordered := ordered + [tables[k]];
          remaining := remaining - {tables[k]};
          progress := true;
        }
      }
    }
  }

  function Listed(tables: seq<Table>): set<Table> { set t | t in tables }

  function Keep(tables: seq<Table>, s: set<Table>): seq<Table> {
    if tables == [] then [] else
      Keep(tables[..|tables| - 1], s) + (if tables[|tables| - 1] in s then [tables[|tables| - 1]] else [])
  }

  method KeepRemaining(tables: seq<Table>, remaining: set<Table>) returns (blocked: seq<Table>)
    ensures blocked == Keep(tables, remaining)
  {
    blocked := [];
    for k := 0 to |tables|
      invariant blocked == Keep(tables[..k], remaining)
    {
      assert tables[..k + 1][..k] == tables[..k];
      if tables[k] in remaining { blocked := blocked + [tables[k]]; }
    }
    assert tables[..|tables|] == tables;
  }

  // Rounds until nothing more becomes ready; what is left walks into a cycle.
  method DataOrder(tables: seq<Table>, fks: seq<ForeignKey>) returns (ordered: seq<Table>, blocked: seq<Table>)
    ensures ListedParentsFirst(fks, Listed(tables), ordered) && Distinct(ordered)
    ensures forall t :: t in ordered <==> t in tables && !ReachesCycle(fks, Listed(tables), t)
    ensures forall t :: t in blocked <==> t in tables && ReachesCycle(fks, Listed(tables), t)
    ensures Distinct(tables) ==> multiset(ordered) + multiset(blocked) == multiset(tables)
  {
    ghost var listed := Listed(tables);
    var remaining: set<Table> := Listed(tables);
    ordered := [];
    while remaining != {}
      invariant Progressing(fks, listed, remaining, ordered)
      decreases remaining
    {
      var progress;
      remaining, ordered, progress := Pass(tables, fks, remaining, ordered);
      if !progress { break; }
    }
    assert forall t :: t in remaining ==> Waits(fks, remaining, t);
    blocked := KeepRemaining(tables, remaining);
    RoundsEnd(tables, fks, remaining, ordered);
  }

  lemma RoundsEnd(tables: seq<Table>, fks: seq<ForeignKey>, remaining: set<Table>, ordered: seq<Table>)
    requires Progressing(fks, Listed(tables), remaining, ordered)
    requires forall t :: t in remaining ==> Waits(fks, remaining, t)
    ensures forall t :: t in ordered <==> t in tables && !ReachesCycle(fks, Listed(tables), t)
    ensures forall t :: t in Keep(tables, remaining) <==> t in tables && ReachesCycle(fks, Listed(tables), t)
    ensures Distinct(tables) ==> multiset(ordered) + multiset(Keep(tables, remaining)) == multiset(tables)
  {
    RoundsExact(fks, Listed(tables), remaining, ordered);
    forall t ensures t in Keep(tables, remaining) <==> t in tables && t in remaining {
      KeepExact(tables, remaining, t);
    }
    if Distinct(tables) { KeepSplits(tables, remaining, ordered); }
  }

  lemma {:induction false} KeepExact(tables: seq<Table>, s: set<Table>, t: Table)
    ensures t in Keep(tables, s) <==> t in tables && t in s
  {
    if tables != [] {
      var n := |tables| - 1;
      KeepExact(tables[..n], s, t);
      assert tables == tables[..n] + [tables[n]];
    }
  }

  // The tables that stay behind are exactly those that reach a cycle within the list.
  lemma RoundsExact(fks: seq<ForeignKey>, tables: set<Table>, remaining: set<Table>, ordered: seq<Table>)
    requires Progressing(fks, tables, remaining, ordered)
    requires forall t :: t in remaining ==> Waits(fks, remaining, t)
    ensures forall t :: t in tables ==> (t in remaining <==> ReachesCycle(fks, tables, t))
  {
    forall t | t in tables ensures t in remaining <==> ReachesCycle(fks, tables, t) {
      if t in remaining {
        var q := StuckReachesCycle(fks, remaining, [t]);
        assert Inside(tables, q);
      } else {
        forall p | Walk(fks, p) && Lasso(p) && p[0] == t && Inside(tables, p) ensures false {
          OrderedHasNoLasso(fks, tables, ordered, p);
        }
      }
    }
  }

  lemma {:induction false} ListedDescends(fks: seq<ForeignKey>, tables: set<Table>, out: seq<Table>, p: seq<Table>,
      i: nat, k: nat)
    returns (j: nat)
    requires ListedParentsFirst(fks, tables, out) && Walk(fks, p) && Inside(tables, p)
    requires i < |out| && out[i] == p[0] && k < |p|
    ensures j <= i && out[j] == p[k] && (k > 0 ==> j < i)
  {
    if k == 0 {
      j := i;
    } else {
      j := ListedDescends(fks, tables, out, p, i, k - 1);
      assert ForeignKey(p[k - 1], p[k]) in fks;
      var m :| 0 <= m < j && out[..j][m] == p[k];
      j := m;
    }
  }

  lemma OrderedHasNoLasso(fks: seq<ForeignKey>, tables: set<Table>, out: seq<Table>, p: seq<Table>)
    requires ListedParentsFirst(fks, tables, out) && Distinct(out) && Walk(fks, p) && Inside(tables, p) && p[0] in out
    ensures !Lasso(p)
  {
    var i :| 0 <= i < |out| && out[i] == p[0];
    var last := ListedDescends(fks, tables, out, p, i, |p| - 1);
    forall k | 0 <= k < |p| - 1 ensures p[k] != p[|p| - 1] {
      var j := ListedDescends(fks, tables, out, p, i, k);
      assert Walk(fks, p[k..]) && Inside(tables, p[k..]);
      var again := ListedDescends(fks, tables, out, p[k..], j, |p| - 1 - k);
    }
  }

  lemma {:induction false} CountDistinct(s: seq<Table>, t: Table)
    requires Distinct(s)
    ensures multiset(s)[t] == (if t in s then 1 else 0)
  {
    if s != [] {
      var n := |s| - 1;
      assert s == s[..n] + [s[n]];
      CountDistinct(s[..n], t);
    }
  }

  lemma {:induction false} KeepDistinct(tables: seq<Table>, s: set<Table>)
    requires Distinct(tables)
    ensures Distinct(Keep(tables, s))
  {
    if tables != [] {
      var n := |tables| - 1;
      KeepDistinct(tables[..n], s);
      KeepExact(tables[..n], s, tables[n]);
      assert tables[n] !in tables[..n];
    }
  }

  // Ordered and blocked tables together are the list, each once.
  lemma KeepSplits(tables: seq<Table>, remaining: set<Table>, ordered: seq<Table>)
    requires Distinct(tables) && Distinct(ordered)
    requires forall t :: t in tables ==> (t in ordered <==> t !in remaining)
    requires forall t :: t in ordered ==> t in tables
    ensures multiset(ordered) + multiset(Keep(tables, remaining)) == multiset(tables)
  {
    KeepDistinct(tables, remaining);
    forall t: Table
      ensures (multiset(ordered) + multiset(Keep(tables, remaining)))[t] == multiset(tables)[t]
    {
      CountDistinct(tables, t);
      CountDistinct(ordered, t);
      CountDistinct(Keep(tables, remaining), t);
      KeepExact(tables, remaining, t);
    }
  }
}
