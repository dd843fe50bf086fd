// Widening VARCHAR columns of a new MySQL table until its declared row fits
// (datamigrate/pgmysql_text.go).
module RowFit {
  const LIMIT: int := 65535

  // What the target type text of a column decides: a bounded character type, a type
  // stored off the row, any other type, or no mapping at all.
  datatype Shape = Char | VarChar | OffRow | Plain | Unmapped

  // `mapped` is the shape without widening; `longText` is the private widening mark.
  // `plainExtra` and `defaultFits` say that no extra attribute and no unusable default
  // stands in the way of a LONGTEXT column.
  datatype Column = Column(name: string, mapped: Shape, length: int, uuid: bool, longText: bool,
                           plainExtra: bool, defaultFits: bool)

  function ShapeOf(c: Column): Shape { if c.mapped.VarChar? && c.longText then OffRow else c.mapped }

  function Max(a: int, b: int): int { if a >= b then a else b }

  function TextLength(c: Column): int { if c.uuid then 36 else Max(c.length, 1) }

  function ColumnBytes(c: Column, maxBytes: int): int {
    match ShapeOf(c)
    case Char | VarChar => TextLength(c) * maxBytes + 2
    case OffRow => 20
    case Plain => 32
    case Unmapped => 0
  }

  function SumBytes(cols: seq<Column>, maxBytes: int): int {
    if cols == [] then 0 else SumBytes(cols[..|cols| - 1], maxBytes) + ColumnBytes(cols[|cols| - 1], maxBytes)
  }

  function RowBytes(cols: seq<Column>, maxBytes: int): int { (|cols| + 7) / 8 + SumBytes(cols, maxBytes) }

  method DeclaredRowBytes(cols: seq<Column>, maxBytes: int) returns (n: int)
    ensures n == RowBytes(cols, maxBytes)
  {
    n := (|cols| + 7) / 8;
    for k := 0 to |cols|
      invariant n == (|cols| + 7) / 8 + SumBytes(cols[..k], maxBytes)
    {
      assert cols[..k + 1][..k] == cols[..k];
      var c := cols[k];
      var length := if c.length < 1 then 1 else c.length;
      if c.uuid { length := 36; }
      match c.mapped {
        case Char => n := n + length * maxBytes + 2;
        case VarChar => n := n + if c.longText then 20 else length * maxBytes + 2;
        case OffRow => n := n + 20;
        case Plain => n := n + 32;
        case Unmapped =>
      }
    }
    assert cols[..|cols|] == cols;
  }

  // What a value of a column may take in the row: characters of any width with two bytes for their length, a
  // reference to text stored elsewhere, or at most 32 bytes.
  predicate MayTake(c: Column, maxBytes: int, size: int) {
    match c.mapped
    case Char => size <= (if c.uuid then 36 else if c.length > 0 then c.length else 1) * maxBytes + 2
    case VarChar =>
      if c.longText then size <= 20
      else size <= (if c.uuid then 36 else if c.length > 0 then c.length else 1) * maxBytes + 2
    case OffRow => size <= 20
    case Plain => size <= 32
    case Unmapped => size <= 0
  }

  function Total(sizes: seq<int>): int {
    if sizes == [] then 0 else Total(sizes[..|sizes| - 1]) + sizes[|sizes| - 1]
  }

  ghost predicate MayTakeAll(cols: seq<Column>, maxBytes: int, sizes: seq<int>) {
    |sizes| == |cols| && forall i :: 0 <= i < |cols| ==> MayTake(cols[i], maxBytes, sizes[i])
  }

  // The largest row there can be.
  function Largest(cols: seq<Column>, maxBytes: int): seq<int> {
    seq(|cols|, i requires 0 <= i < |cols| => ColumnBytes(cols[i], maxBytes))
  }

  // The estimate is conservative, and no larger than that: no row with a bit for each of some nullable columns
  // takes more, and one takes exactly as much.
  lemma {:induction false} EstimateIsLargestRow(cols: seq<Column>, maxBytes: int, sizes: seq<int>, nullable: nat)
    requires MayTakeAll(cols, maxBytes, sizes) && nullable <= |cols|
    ensures (nullable + 7) / 8 + Total(sizes) <= RowBytes(cols, maxBytes)
    ensures MayTakeAll(cols, maxBytes, Largest(cols, maxBytes))
    ensures (|cols| + 7) / 8 + Total(Largest(cols, maxBytes)) == RowBytes(cols, maxBytes)
  {
    SumIsLargest(cols, maxBytes, sizes);
  }

  lemma {:induction false} SumIsLargest(cols: seq<Column>, maxBytes: int, sizes: seq<int>)
    requires MayTakeAll(cols, maxBytes, sizes)
    ensures Total(sizes) <= SumBytes(cols, maxBytes) == Total(Largest(cols, maxBytes))
    ensures MayTakeAll(cols, maxBytes, Largest(cols, maxBytes))
  {
    if cols != [] {
      var n := |cols| - 1;
      SumIsLargest(cols[..n], maxBytes, sizes[..n]);
      assert Largest(cols, maxBytes)[..n] == Largest(cols[..n], maxBytes);
    }
    forall i | 0 <= i < |cols| ensures MayTake(cols[i], maxBytes, Largest(cols, maxBytes)[i]) {}
  }

  // ---------------------------------------------------------------------------
  // Candidates and widening
  // ---------------------------------------------------------------------------

  // A long VARCHAR that no key uses and that may become LONGTEXT. A uuid never maps to VARCHAR.
  predicate Candidate(c: Column, keyed: set<string>) {
    ShapeOf(c).VarChar? && !c.uuid && c.length >= 256 && c.name !in keyed && c.plainExtra && c.defaultFits
  }

  ghost predicate Candidates(cols: seq<Column>, keyed: set<string>, s: set<nat>) {
    forall i: nat :: i in s <==> i < |cols| && Candidate(cols[i], keyed)
  }

  function Widen(cols: seq<Column>, s: set<nat>): seq<Column> {
    seq(|cols|, i requires 0 <= i < |cols| => if i in s then cols[i].(longText := true) else cols[i])
  }

  // Bytes a candidate saves.
  function Saving(c: Column, maxBytes: int): int { c.length * maxBytes - 18 }

  function Savings(cols: seq<Column>, order: seq<nat>, maxBytes: int): int
    requires forall k :: 0 <= k < |order| ==> order[k] < |cols|
  {
    if order == [] then 0
    else Savings(cols, order[..|order| - 1], maxBytes) + Saving(cols[order[|order| - 1]], maxBytes)
  }

  ghost predicate Distinct(order: seq<nat>) { forall j, k :: 0 <= j < k < |order| ==> order[j] != order[k] }

  ghost predicate LongestFirst(cols: seq<Column>, order: seq<nat>)
    requires forall k :: 0 <= k < |order| ==> order[k] < |cols|
  {
    forall j, k :: 0 <= j < k < |order| ==> cols[order[j]].length >= cols[order[k]].length
  }

  function Elements(order: seq<nat>): set<nat> { set i | i in order }

  lemma {:induction false} WidenOne(cols: seq<Column>, s: set<nat>, i: nat, keyed: set<string>, maxBytes: int)
    requires i < |cols| && i !in s && Candidate(cols[i], keyed)
    ensures SumBytes(Widen(cols, s + {i}), maxBytes) == SumBytes(Widen(cols, s), maxBytes) - Saving(cols[i], maxBytes)
  {
    var n := |cols| - 1;
    var a, b := Widen(cols, s), Widen(cols, s + {i});
    assert a[..n] == Widen(cols[..n], s) && b[..n] == Widen(cols[..n], s + {i});
    if i == n {
      assert Widen(cols[..n], s) == Widen(cols[..n], s + {i});
    } else {
      WidenOne(cols[..n], s, i, keyed, maxBytes);
    }
  }

  // Widening candidates saves what they save together.
  lemma {:induction false} WidenSaves(cols: seq<Column>, order: seq<nat>, keyed: set<string>, maxBytes: int)
    requires Distinct(order) && forall k :: 0 <= k < |order| ==> order[k] < |cols| && Candidate(cols[order[k]], keyed)
    ensures RowBytes(Widen(cols, Elements(order)), maxBytes)
            == RowBytes(cols, maxBytes) - Savings(cols, order, maxBytes)
  {
    if order == [] {
      assert Elements(order) == {} && Widen(cols, {}) == cols;
    } else {
      var n := |order| - 1;
      WidenSaves(cols, order[..n], keyed, maxBytes);
      assert order == order[..n] + [order[n]];
      assert Elements(order) == Elements(order[..n]) + {order[n]};
      WidenOne(cols, Elements(order[..n]), order[n], keyed, maxBytes);
    }
  }

  // ---------------------------------------------------------------------------
  // Longest first is best
  // ---------------------------------------------------------------------------

  // The positions in `order` of a choice of its members, ascending.
  ghost predicate Positions(order: seq<nat>, at: seq<nat>) {
    && (forall j :: 0 <= j < |at| ==> at[j] < |order|)
    && (forall j, k :: 0 <= j < k < |at| ==> at[j] < at[k])
  }

  function SavingsAt(cols: seq<Column>, order: seq<nat>, at: seq<nat>, maxBytes: int): int
    requires forall k :: 0 <= k < |order| ==> order[k] < |cols|
    requires forall j :: 0 <= j < |at| ==> at[j] < |order|
  {
    if at == [] then 0
    else SavingsAt(cols, order, at[..|at| - 1], maxBytes) + Saving(cols[order[at[|at| - 1]]], maxBytes)
  }

  lemma {:induction false} PositionsGrow(order: seq<nat>, at: seq<nat>, j: nat)
    requires Positions(order, at) && j < |at|
    ensures j <= at[j]
  {
    if j > 0 { PositionsGrow(order, at, j - 1); }
  }

  // Exchange: the j-th of any ascending choice is no longer than the j-th of the order.
  lemma {:induction false} PrefixSavesMost(cols: seq<Column>, order: seq<nat>, at: seq<nat>, maxBytes: int)
    requires forall k :: 0 <= k < |order| ==> order[k] < |cols|
    requires LongestFirst(cols, order) && Positions(order, at) && maxBytes >= 1
    ensures |at| <= |order|
    ensures SavingsAt(cols, order, at, maxBytes) <= Savings(cols, order[..|at|], maxBytes)
  {
    if at != [] {
      var n := |at| - 1;
      PrefixSavesMost(cols, order, at[..n], maxBytes);
      PositionsGrow(order, at, n);
      assert order[..n + 1][..n] == order[..n];
      assert cols[order[at[n]]].length <= cols[order[n]].length;
      Scale(cols[order[at[n]]].length, cols[order[n]].length, maxBytes);
    }
  }

  lemma Scale(a: int, b: int, m: int)
    requires a <= b && m >= 0
    ensures a * m <= b * m
  {}

  // The positions of exactly the members of a set.
  ghost predicate Lists(order: seq<nat>, at: seq<nat>, s: set<nat>) {
    Positions(order, at) && |at| == |s| && Elements(Pick(order, at)) == s && Distinct(Pick(order, at))
  }

  lemma ListInLonger(order: seq<nat>, at: seq<nat>, s: set<nat>, x: nat)
    requires Lists(order, at, s)
    ensures Lists(order + [x], at, s)
  {
    assert Pick(order + [x], at) == Pick(order, at);
  }

  lemma ListOneMore(order: seq<nat>, at: seq<nat>, s: set<nat>, x: nat)
    requires Lists(order, at, s) && x !in s
    ensures Lists(order + [x], at + [|order|], s + {x})
  {
    PickSnoc(order, at, x);
    ElementsSnoc(Pick(order, at), x);
    DistinctSnoc(Pick(order, at), x);
  }

  lemma PickSnoc(order: seq<nat>, at: seq<nat>, x: nat)
    requires Positions(order, at)
    ensures Positions(order + [x], at + [|order|]) && Pick(order + [x], at + [|order|]) == Pick(order, at) + [x]
  {}

  lemma ListNothing(order: seq<nat>, s: set<nat>)
    requires order == [] && s <= Elements(order)
    ensures Lists(order, [], s)
  {
    assert s == {};
  }

  lemma WithoutLast(front: seq<nat>, x: nat, s: set<nat>)
    requires Distinct(front + [x]) && s <= Elements(front + [x])
    ensures Distinct(front) && s - {x} <= Elements(front)
  {
    ElementsSnoc(front, x);
    assert forall k :: 0 <= k < |front| ==> front[k] == (front + [x])[k];
  }

  // Any set of members can be listed.
  lemma {:induction false} ListPositions(order: seq<nat>, s: set<nat>) returns (at: seq<nat>)
    requires Distinct(order) && s <= Elements(order)
    ensures Lists(order, at, s)
  {
    if order == [] {
      at := [];
      ListNothing(order, s);
    } else {
      var front, x := order[..|order| - 1], order[|order| - 1];
      assert order == front + [x];
      WithoutLast(front, x, s);
      at := ListPositions(front, s - {x});
      ListLast(front, at, s, x);
      if x in s { at := at + [|front|]; }
    }
  }

  lemma ListLast(front: seq<nat>, at: seq<nat>, s: set<nat>, x: nat)
    requires Lists(front, at, s - {x})
    ensures Lists(front + [x], if x in s then at + [|front|] else at, s)
  {
    if x in s {
      ListOneMore(front, at, s - {x}, x);
      assert s - {x} + {x} == s;
    } else {
      ListInLonger(front, at, s - {x}, x);
      assert s - {x} == s;
    }
  }

  lemma ElementsSnoc(order: seq<nat>, x: nat)
    ensures Elements(order + [x]) == Elements(order) + {x}
  {}

  lemma DistinctSnoc(order: seq<nat>, x: nat)
    requires Distinct(order) && x !in Elements(order)
    ensures Distinct(order + [x])
  {
    forall j | 0 <= j < |order| ensures order[j] != x { assert order[j] in Elements(order); }
  }

  function Pick(order: seq<nat>, at: seq<nat>): seq<nat>
    requires forall j :: 0 <= j < |at| ==> at[j] < |order|
  {
    seq(|at|, j requires 0 <= j < |at| => order[at[j]])
  }

  lemma {:induction false} PickedSavings(cols: seq<Column>, order: seq<nat>, at: seq<nat>, maxBytes: int)
    requires forall k :: 0 <= k < |order| ==> order[k] < |cols|
    requires forall j :: 0 <= j < |at| ==> at[j] < |order|
    ensures Savings(cols, Pick(order, at), maxBytes) == SavingsAt(cols, order, at, maxBytes)
  {
    if at != [] {
      var n := |at| - 1;
      PickedSavings(cols, order, at[..n], maxBytes);
      assert Pick(order, at)[..n] == Pick(order, at[..n]);
    }
  }

  // The candidates, longest first.
  ghost predicate Ordered(cols: seq<Column>, keyed: set<string>, order: seq<nat>) {
    && (forall k :: 0 <= k < |order| ==> order[k] < |cols| && Candidate(cols[order[k]], keyed))
    && Distinct(order) && LongestFirst(cols, order) && Candidates(cols, keyed, Elements(order))
  }

  // No choice of k candidates brings the row lower than the k longest.
  lemma LongestAreBest(cols: seq<Column>, keyed: set<string>, order: seq<nat>, s: set<nat>, maxBytes: int)
    requires Ordered(cols, keyed, order) && s <= Elements(order) && maxBytes >= 1
    ensures |s| <= |order|
    ensures RowBytes(Widen(cols, Elements(order[..|s|])), maxBytes) <= RowBytes(Widen(cols, s), maxBytes)
  {
    var at := ListPositions(order, s);
    PrefixSavesMost(cols, order, at, maxBytes);
    PickedSavings(cols, order, at, maxBytes);
    WidenSaves(cols, Pick(order, at), keyed, maxBytes);
    WidenSaves(cols, order[..|s|], keyed, maxBytes);
  }

  // ---------------------------------------------------------------------------
  // Sorting and fitting
  // ---------------------------------------------------------------------------

  // Into its place behind all that are at least as long.
  function Insert(cols: seq<Column>, order: seq<nat>, x: nat): seq<nat>
    requires x < |cols| && forall k :: 0 <= k < |order| ==> order[k] < |cols|
  {
    if order == [] || cols[order[|order| - 1]].length >= cols[x].length then order + [x]
    else Insert(cols, order[..|order| - 1], x) + [order[|order| - 1]]
  }

  // What is not longer than anything listed may follow.
  lemma Follows(cols: seq<Column>, r: seq<nat>, y: nat)
    requires y < |cols| && (forall k :: 0 <= k < |r| ==> r[k] < |cols|) && LongestFirst(cols, r) && Distinct(r)
    requires forall k :: 0 <= k < |r| ==> r[k] != y && cols[r[k]].length >= cols[y].length
    ensures LongestFirst(cols, r + [y]) && Distinct(r + [y])
  {}

  lemma {:induction false} InsertOrders(cols: seq<Column>, order: seq<nat>, x: nat)
    requires x < |cols| && (forall k :: 0 <= k < |order| ==> order[k] < |cols|)
    requires LongestFirst(cols, order) && Distinct(order) && x !in order
    ensures var r := Insert(cols, order, x);
            (forall k :: 0 <= k < |r| ==> r[k] < |cols|) && LongestFirst(cols, r) && Distinct(r)
            && forall i :: i in r <==> i in order || i == x
  {
    if order == [] || cols[order[|order| - 1]].length >= cols[x].length {
      Follows(cols, order, x);
    } else {
      var front, last := order[..|order| - 1], order[|order| - 1];
      InsertOrders(cols, front, x);
      assert order == front + [last];
      InsertBefore(cols, front, last, x, Insert(cols, front, x));
    }
  }

  lemma InsertBefore(cols: seq<Column>, front: seq<nat>, last: nat, x: nat, r: seq<nat>)
    requires last < |cols| && x < |cols| && x != last && cols[x].length >= cols[last].length
    requires (forall k :: 0 <= k < |front| ==> front[k] < |cols|) && (forall k :: 0 <= k < |r| ==> r[k] < |cols|)
    requires LongestFirst(cols, front + [last]) && Distinct(front + [last])
    requires LongestFirst(cols, r) && Distinct(r) && forall i :: i in r <==> i in front || i == x
    ensures LongestFirst(cols, r + [last]) && Distinct(r + [last])
  {
    forall k | 0 <= k < |r| ensures r[k] != last && cols[r[k]].length >= cols[last].length {
      assert r[k] in r;
      if r[k] != x { BeforeLast(cols, front, last, r[k]); }
    }
    Follows(cols, r, last);
  }

  lemma BeforeLast(cols: seq<Column>, front: seq<nat>, last: nat, y: nat)
    requires last < |cols| && (forall k :: 0 <= k < |front| ==> front[k] < |cols|) && y in front
    requires LongestFirst(cols, front + [last]) && Distinct(front + [last])
    ensures y != last && cols[y].length >= cols[last].length
  {
    var k :| 0 <= k < |front| && front[k] == y;
    assert (front + [last])[k] == y && (front + [last])[|front|] == last;
  }

  method CandidateOrder(cols: seq<Column>, keyed: set<string>) returns (order: seq<nat>)
    ensures Ordered(cols, keyed, order)
  {
    order := [];
    for i := 0 to |cols|
      invariant forall k :: 0 <= k < |order| ==> order[k] < i
      invariant Distinct(order) && LongestFirst(cols, order)
      invariant forall j: nat :: j in order <==> j < i && Candidate(cols[j], keyed)
    {
      var c := cols[i];
      if c.mapped.VarChar? && !c.longText && !c.uuid && 256 <= c.length && c.name !in keyed && c.plainExtra
        && c.defaultFits
      {
        InsertOrders(cols, order, i);
        order := Insert(cols, order, i);
        forall k | 0 <= k < |order| ensures order[k] <= i { assert order[k] in order; }
      }
    }
    forall k | 0 <= k < |order| ensures Candidate(cols[order[k]], keyed) { assert order[k] in order; }
  }

  datatype Index = Index(unsupported: bool, columns: seq<string>)

  datatype ForeignKey = ForeignKey(table: string, columns: seq<string>, refTable: string, refSchema: string,
      refColumns: seq<string>)

  ghost predicate IndexKeyed(indexes: seq<Index>, name: string) {
    exists i :: 0 <= i < |indexes| && name in indexes[i].columns
  }

  // Referring and referenced columns of every key of the snapshot, whether or not it takes part.
  ghost predicate KeyKeyed(fks: seq<ForeignKey>, table: string, schema: string, name: string) {
    exists i :: 0 <= i < |fks| && ((fks[i].table == table && name in fks[i].columns)
                                   || (fks[i].refTable == table && fks[i].refSchema == schema
                                      && name in fks[i].refColumns))
  }

  function Names(s: seq<string>): set<string> { set x | x in s }

  method KeyedColumns(table: string, schema: string, indexes: seq<Index>, fks: seq<ForeignKey>)
    returns (ok: bool, keyed: set<string>)
    ensures ok <==> forall i :: 0 <= i < |indexes| ==> !indexes[i].unsupported && indexes[i].columns != []
    ensures ok ==> forall name :: name in keyed <==> IndexKeyed(indexes, name) || KeyKeyed(fks, table, schema, name)
  {
    keyed := {};
    for i := 0 to |indexes|
      invariant forall j :: 0 <= j < i ==> !indexes[j].unsupported && indexes[j].columns != []
      invariant forall name :: name in keyed <==> exists j :: 0 <= j < i && name in indexes[j].columns
    {
      if indexes[i].unsupported || indexes[i].columns == [] { return false, keyed; }
      keyed := keyed + Names(indexes[i].columns);
    }
    var keys := ForeignKeyColumns(table, schema, fks);
    return true, keyed + keys;
  }

  method ForeignKeyColumns(table: string, schema: string, fks: seq<ForeignKey>) returns (keyed: set<string>)
    ensures forall name :: name in keyed <==> KeyKeyed(fks, table, schema, name)
  {
    keyed := {};
    for i := 0 to |fks|
      invariant forall name :: name in keyed <==> KeyKeyed(fks[..i], table, schema, name)
    {
      var fk := fks[i];
      ghost var before := keyed;
      if fk.table == table { keyed := keyed + Names(fk.columns); }
      if fk.refTable == table && fk.refSchema == schema { keyed := keyed + Names(fk.refColumns); }
      assert fks[..i + 1] == fks[..i] + [fk];
      forall name ensures name in keyed <==> KeyKeyed(fks[..i + 1], table, schema, name) {
        assert fks[..i + 1][i] == fk;
        if KeyKeyed(fks[..i], table, schema, name) {
          var j :| 0 <= j < i && ((fks[..i][j].table == table && name in fks[..i][j].columns)
                                  || (fks[..i][j].refTable == table && fks[..i][j].refSchema == schema
                                     && name in fks[..i][j].refColumns));
          assert fks[..i + 1][j] == fks[..i][j];
        }
      }
    }
    assert fks[..|fks|] == fks;
  }

  ghost predicate Choice(cols: seq<Column>, keyed: set<string>, c: set<nat>) {
    forall i :: i in c ==> i < |cols| && Candidate(cols[i], keyed)
  }

  ghost predicate Sufficient(cols: seq<Column>, keyed: set<string>, c: set<nat>, maxBytes: int) {
    Choice(cols, keyed, c) && RowBytes(Widen(cols, c), maxBytes) <= LIMIT
  }

  // `s` is a smallest choice of candidates that brings the row below the limit.
  ghost predicate FewestSufficient(cols: seq<Column>, keyed: set<string>, s: set<nat>, maxBytes: int) {
    && Sufficient(cols, keyed, s, maxBytes)
    && forall c: set<nat> :: Sufficient(cols, keyed, c, maxBytes) ==> |s| <= |c|
  }

  ghost predicate NoneSufficient(cols: seq<Column>, keyed: set<string>, maxBytes: int) {
    forall c: set<nat> :: !Sufficient(cols, keyed, c, maxBytes)
  }

  // Widen the longest candidates until the row fits; keep the columns if it never does.
  method WidenLongest(cols: seq<Column>, keyed: set<string>, maxBytes: int)
    returns (out: seq<Column>, ghost s: set<nat>, fits: bool)
    requires maxBytes >= 1 && RowBytes(cols, maxBytes) > LIMIT
    ensures fits ==> out == Widen(cols, s) && FewestSufficient(cols, keyed, s, maxBytes)
    ensures !fits ==> out == cols && NoneSufficient(cols, keyed, maxBytes)
  {
    var order := CandidateOrder(cols, keyed);
    var wide := cols;
    var n := 0;
    var bytes := DeclaredRowBytes(cols, maxBytes);
    assert Elements(order[..0]) == {} && Widen(cols, {}) == cols;
    while n < |order| && bytes > LIMIT
      invariant 0 <= n <= |order| && wide == Widen(cols, Elements(order[..n])) && bytes == RowBytes(wide, maxBytes)
      invariant forall k :: 0 <= k < n ==> RowBytes(Widen(cols, Elements(order[..k])), maxBytes) > LIMIT
    {
      WidenNext(cols, order, n);
      wide := wide[order[n] := wide[order[n]].(longText := true)];
      n := n + 1;
      bytes := DeclaredRowBytes(wide, maxBytes);
    }
    s := Elements(order[..n]);
    fits := bytes <= LIMIT;
    FewerFail(cols, keyed, order, n, fits, maxBytes);
    PrefixSize(order, n);
    out := if fits then wide else cols;
  }

  lemma WidenNext(cols: seq<Column>, order: seq<nat>, n: nat)
    requires n < |order| && order[n] < |cols|
    ensures Widen(cols, Elements(order[..n + 1])) ==
              (var wide := Widen(cols, Elements(order[..n])); wide[order[n] := wide[order[n]].(longText := true)])
  {
    assert order[..n + 1] == order[..n] + [order[n]];
    ElementsSnoc(order[..n], order[n]);
  }

  // Where the n longest are the first prefix that fits, or no prefix fits, no smaller choice does.
  lemma FewerFail(cols: seq<Column>, keyed: set<string>, order: seq<nat>, n: nat, fits: bool, maxBytes: int)
    requires Ordered(cols, keyed, order) && maxBytes >= 1 && n <= |order| && (fits || n == |order|)
    requires forall k :: 0 <= k < n ==> RowBytes(Widen(cols, Elements(order[..k])), maxBytes) > LIMIT
    requires fits || RowBytes(Widen(cols, Elements(order[..n])), maxBytes) > LIMIT
    ensures forall c: set<nat> :: Choice(cols, keyed, c) && (|c| < n || !fits) ==>
            RowBytes(Widen(cols, c), maxBytes) > LIMIT
  {
    forall c: set<nat> | Choice(cols, keyed, c) && (|c| < n || !fits)
      ensures RowBytes(Widen(cols, c), maxBytes) > LIMIT
    {
      assert c <= Elements(order);
      LongestAreBest(cols, keyed, order, c, maxBytes);
    }
  }

  lemma {:induction false} PrefixSize(order: seq<nat>, n: nat)
    requires Distinct(order) && n <= |order|
    ensures |Elements(order[..n])| == n
  {
    if n == 0 {
      assert Elements(order[..0]) == {};
    } else {
      PrefixSize(order, n - 1);
      assert order[..n] == order[..n - 1] + [order[n - 1]];
      ElementsSnoc(order[..n - 1], order[n - 1]);
      assert order[n - 1] !in order[..n - 1];
    }
  }

  ghost predicate Keyed(table: string, schema: string, indexes: seq<Index>, fks: seq<ForeignKey>, name: string) {
    IndexKeyed(indexes, name) || KeyKeyed(fks, table, schema, name)
  }

  // The row is too long and everything needed to judge its columns is known.
  ghost predicate Adjustable(cols: seq<Column>, indexes: seq<Index>, checks: bool, rulesValid: bool, maxBytes: int) {
    && checks && rulesValid && |cols| <= 1017 && RowBytes(cols, maxBytes) > LIMIT
    && forall i :: 0 <= i < |indexes| ==> !indexes[i].unsupported && indexes[i].columns != []
  }

  ghost predicate Fitted(cols: seq<Column>, keyed: set<string>, out: seq<Column>, s: set<nat>, maxBytes: int) {
    if RowBytes(out, maxBytes) <= LIMIT then FewestSufficient(cols, keyed, s, maxBytes) && out == Widen(cols, s)
    else NoneSufficient(cols, keyed, maxBytes) && out == cols
  }

  // The columns a new table is declared with.
  method FitRow(table: string, schema: string, cols: seq<Column>, indexes: seq<Index>, fks: seq<ForeignKey>,
                checks: bool, rulesValid: bool, maxBytes: int)
    returns (out: seq<Column>, ghost s: set<nat>, ghost keyed: set<string>)
    requires rulesValid ==> maxBytes >= 1
    ensures out == cols || (out == Widen(cols, s) && RowBytes(out, maxBytes) <= LIMIT)
    ensures |out| == |cols| && forall i :: 0 <= i < |cols| && Keyed(table, schema, indexes, fks, cols[i].name) ==>
            out[i] == cols[i]
    ensures !Adjustable(cols, indexes, checks, rulesValid, maxBytes) ==> out == cols
    ensures Adjustable(cols, indexes, checks, rulesValid, maxBytes) ==>
              Fitted(cols, keyed, out, s, maxBytes)
              && forall name :: name in keyed <==> Keyed(table, schema, indexes, fks, name)
  {
    s, keyed := {}, {};
    if !checks || |cols| > 1017 || !rulesValid { return cols, s, keyed; }
    var before := DeclaredRowBytes(cols, maxBytes);
    if before <= LIMIT { return cols, s, keyed; }
    var ok, names := KeyedColumns(table, schema, indexes, fks);
    if !ok { return cols, s, keyed; }
    keyed := names;
    var fits;
    out, s, fits := WidenLongest(cols, names, maxBytes);
  }
}
