// Adapting an ordinary Oracle index to MySQL's key length limit
// (datamigrate/oraclemysql_indexes_plan.go). Byte counts are mathematical integers.
module IndexPrefix {
  import opened Wrappers

  const MAX_INT64: int := 0x7fff_ffff_ffff_ffff

  // ---------------------------------------------------------------------------
  // Column metadata and its contribution to the key
  // ---------------------------------------------------------------------------

  // The first word of a target column type; Other is a word the planner does not know.
  datatype Word =
    | TinyText | TinyBlob | Text | Blob | MediumText | MediumBlob | LongText | LongBlob
    | Char | VarChar | Binary | VarBinary
    | TinyInt | Bool | SmallInt | MediumInt | Int | BigInt | Float | Double | Decimal | Bit
    | Date | Year | Time | DateTime | Timestamp | Other

  // A target column type after the type pattern was matched, with up to two
  // decimal arguments. Unparsed is a type text the pattern rejects.
  datatype TypeText = Unparsed | TypeText(word: Word, first: Option<nat>, second: Option<nat>)

  datatype Column = Column(name: string, text: TypeText, maxBytes: int, length: int,
                           precision: int, scale: int, timePrecision: int)

  // Either a fixed number of bytes (units == 0) or a run of characters/bytes
  // that may be shortened to a prefix.
  datatype Part = Part(fixedBytes: int, units: int, unitBytes: int, mandatory: bool)

  datatype PartResult = UnknownType | Invalid | Known(part: Part)

  predicate Sound(p: Part) {
    if p.units == 0 then p.fixedBytes >= 1 && !p.mandatory else p.units >= 1 && p.unitBytes >= 1
  }

  function Min(a: int, b: int): int { if a <= b then a else b }

  function TextBytes(word: Word): int {
    match word
    case TinyText | TinyBlob => 255
    case Text | Blob => 65535
    case MediumText | MediumBlob => 16777215
    case LongText | LongBlob => 4294967295
    case _ => 0
  }

  predicate BinaryWord(word: Word) {
    word.Binary? || word.VarBinary? || word.TinyBlob? || word.Blob? || word.MediumBlob? || word.LongBlob?
  }

  function TextPart(c: Column): PartResult
    requires c.text.TypeText?
  {
    var word, textBytes := c.text.word, TextBytes(c.text.word);
    var binary := BinaryWord(word);
    if !binary && c.maxBytes < 1 then Invalid else
    var unitBytes := if binary then 1 else c.maxBytes;
    var units :=
      if textBytes > 0 then
        var whole := textBytes / unitBytes;
        if c.length > 0 then Min(whole, c.length) else whole
      else if c.text.first.Some? then c.text.first.value else c.length;
    if units < 1 then Invalid else Known(Part(0, units, unitBytes, textBytes > 0))
  }

  function Fixed(bytes: int): PartResult { Known(Part(bytes, 0, 0, false)) }

  function DigitBytes(digits: int): int
    requires digits >= 0
  {
    digits / 9 * 4 + [0, 1, 1, 2, 2, 3, 3, 4, 4][digits % 9]
  }

  function DecimalPart(c: Column): PartResult
    requires c.text.TypeText?
  {
    var precision := if c.text.first.Some? then c.text.first.value
                     else if c.precision == 0 then 10 else c.precision;
    var scale := if c.text.first.Some? then (if c.text.second.Some? then c.text.second.value else 0)
                 else if c.precision == 0 then 0 else c.scale;
    if precision < 1 || precision > 65 || scale < 0 || scale > 30 || scale > precision then Invalid
    else Fixed(DigitBytes(precision - scale) + DigitBytes(scale))
  }

  // The greatest number of key bytes a column of this type contributes.
  function ColumnPart(c: Column): PartResult {
    if c.text.Unparsed? then UnknownType else
    var word, first, second := c.text.word, c.text.first, c.text.second;
    if (first.Some? && first.value > MAX_INT64) || (second.Some? && second.value > MAX_INT64) then Invalid else
    match word
    case TinyText | TinyBlob | Text | Blob | MediumText | MediumBlob | LongText | LongBlob
       | Char | VarChar | Binary | VarBinary => TextPart(c)
    case TinyInt | Bool => Fixed(1)
    case SmallInt => Fixed(2)
    case MediumInt => Fixed(3)
    case Int => Fixed(4)
    case BigInt => Fixed(8)
    case Float => Fixed(if first.Some? && second.None? && first.value > 24 then 8 else 4)
    case Double => Fixed(8)
    case Decimal => DecimalPart(c)
    case Bit =>
      var bits := if first.Some? then first.value else 1;
      if bits < 1 || bits > 64 then Invalid else Fixed((bits + 7) / 8)
    case Date => Fixed(3)
    case Year => Fixed(1)
    case Time | DateTime | Timestamp =>
      var precision := if first.Some? then first.value else c.timePrecision;
      if precision < 0 || precision > 6 then Invalid
      else Fixed((if word.Time? then 3 else if word.DateTime? then 5 else 4) + (precision + 1) / 2)
    case Other => UnknownType
  }

  // A known column is either fixed and at least a byte wide, or divisible into
  // at least one whole unit; a text column's units never exceed its own storage.
  lemma ColumnPartSound(c: Column)
    ensures ColumnPart(c).Known? ==> Sound(ColumnPart(c).part)
    ensures ColumnPart(c).Known? && ColumnPart(c).part.mandatory ==>
              ColumnPart(c).part.units * ColumnPart(c).part.unitBytes <= TextBytes(c.text.word)
  {
    if ColumnPart(c).Known? {
      if c.text.word.Decimal? { DecimalPartSound(c); }
      if ColumnPart(c).part.units > 0 { TextPartSound(c); }
    }
  }

  lemma DecimalPartSound(c: Column)
    requires c.text.TypeText?
    ensures DecimalPart(c).Known? ==> Sound(DecimalPart(c).part) && !DecimalPart(c).part.mandatory
  {}

  lemma TextPartSound(c: Column)
    requires c.text.TypeText?
    ensures TextPart(c).Known? ==> Sound(TextPart(c).part)
    ensures TextPart(c).Known? && TextPart(c).part.mandatory ==>
              TextPart(c).part.units * TextPart(c).part.unitBytes <= TextBytes(c.text.word)
  {
    if TextPart(c).Known? && TextPart(c).part.mandatory {
      var p, t := TextPart(c).part, TextBytes(c.text.word);
      ProductMonotone(p.units, t / p.unitBytes, p.unitBytes);
    }
  }

  lemma ProductMonotone(a: int, b: int, u: int)
    requires a <= b && 0 <= u
    ensures a * u <= b * u
  {}

  // ---------------------------------------------------------------------------
  // What a plan must satisfy
  // ---------------------------------------------------------------------------

  datatype Index = Index(columns: seq<string>, prefixLengths: seq<int>,
                         primary: bool, unique: bool, unsupported: bool)

  datatype PlanError =
    | BadLimit | MissingColumn(name: string) | BadColumn(name: string)
    | Overflow | TooLong(needed: int)

  datatype Plan = Plan(index: Index, adjusted: bool)

  // Later columns of the same name replace earlier ones.
  function ByName(columns: seq<Column>): map<string, Column> {
    if columns == [] then map[]
    else ByName(columns[..|columns| - 1])[columns[|columns| - 1].name := columns[|columns| - 1]]
  }

  predicate HasPrefix(idx: Index, i: nat) { i < |idx.prefixLengths| && idx.prefixLengths[i] > 0 }

  // An explicit prefix of the source index bounds the units that can be used.
  function Limited(p: Part, idx: Index, i: nat): Part {
    if p.units > 0 && HasPrefix(idx, i) then p.(units := Min(p.units, idx.prefixLengths[i])) else p
  }

  function FullBytes(p: Part): int { if p.units == 0 then p.fixedBytes else p.units * p.unitBytes }

  datatype Scan = Parts(parts: seq<Part>) | Unadaptable | Stopped(error: PlanError)

  // The parts of the columns from position |done| on, or the first reason to stop.
  function ScanFrom(idx: Index, columns: map<string, Column>, done: seq<Part>, total: int): Scan
    decreases |idx.columns| - |done|
  {
    var i := |done|;
    if i >= |idx.columns| then Parts(done)
    else if idx.columns[i] !in columns then Stopped(MissingColumn(idx.columns[i]))
    else match ColumnPart(columns[idx.columns[i]])
      case Invalid => Stopped(BadColumn(idx.columns[i]))
      case UnknownType => Unadaptable
      case Known(part) =>
        ColumnPartSound(columns[idx.columns[i]]);
        var p := Limited(part, idx, i);
        if p.units > 0 && p.units > (MAX_INT64 - total) / p.unitBytes then Stopped(Overflow)
        else ScanFrom(idx, columns, done + [p], total + FullBytes(p))
  }

  predicate Adaptable(idx: Index) {
    !idx.primary && !idx.unique && !idx.unsupported && idx.columns != []
  }

  function ScanAll(idx: Index, columns: seq<Column>): Scan { ScanFrom(idx, ByName(columns), [], 0) }

  ghost predicate AllSound(parts: seq<Part>) { forall i :: 0 <= i < |parts| ==> Sound(parts[i]) }

  // Bytes used by a choice of units per part; fixed parts always count in full.
  function Spent(parts: seq<Part>, units: seq<int>): int
    requires |parts| == |units|
  {
    if parts == [] then 0
    else Spent(parts[..|parts| - 1], units[..|parts| - 1]) +
         (var p := parts[|parts| - 1]; if p.units == 0 then p.fixedBytes else units[|parts| - 1] * p.unitBytes)
  }

  function FullUnits(parts: seq<Part>): seq<int> { seq(|parts|, i requires 0 <= i < |parts| => parts[i].units) }

  function OneUnit(parts: seq<Part>): seq<int> {
    seq(|parts|, i requires 0 <= i < |parts| => if parts[i].units > 0 then 1 else 0)
  }

  // A text or blob column without an explicit prefix.
  predicate NeedsPrefix(idx: Index, parts: seq<Part>) {
    exists i :: 0 <= i < |parts| && parts[i].mandatory && !HasPrefix(idx, i)
  }

  // The index already fits and every text column has a prefix.
  predicate Fits(idx: Index, parts: seq<Part>, limit: int) {
    Spent(parts, FullUnits(parts)) <= limit && !NeedsPrefix(idx, parts)
  }

  // The budgets the planner is allowed to hand out.
  ghost predicate Allocation(parts: seq<Part>, limit: int, units: seq<int>) {
    && |units| == |parts|
    && (forall i :: 0 <= i < |parts| ==>
          if parts[i].units == 0 then units[i] == 0 else 1 <= units[i] <= parts[i].units)
    && Spent(parts, units) <= limit
  }

  // No shortened part could take one more unit from what is left over.
  ghost predicate Maximal(parts: seq<Part>, limit: int, units: seq<int>)
    requires |units| == |parts|
  {
    forall i :: 0 <= i < |parts| && units[i] < parts[i].units ==>
      limit - Spent(parts, units) < parts[i].unitBytes
  }

  // Among parts of equal unit width, a shortened one is at most one unit below any other.
  ghost predicate Fair(parts: seq<Part>, units: seq<int>)
    requires |units| == |parts|
  {
    forall i, j :: 0 <= i < |parts| && 0 <= j < |parts| && units[i] < parts[i].units
                   && parts[j].units > 0 && parts[i].unitBytes == parts[j].unitBytes ==>
      units[j] <= units[i] + 1
  }

  // What a part holds beyond its first unit.
  function Bytes(p: Part, units: int): int { (units - 1) * p.unitBytes }

  // A part with v units is ahead of one with u units by less than two of the latter's units and one of its own.
  predicate Lag(p: Part, u: int, q: Part, v: int, spare: int) {
    Bytes(q, v) + spare < Bytes(p, u) + 2 * p.unitBytes + q.unitBytes
  }

  // Among parts of any width, no part is far ahead in bytes of a shortened one that is at least as wide.
  ghost predicate FairInBytes(parts: seq<Part>, units: seq<int>)
    requires |units| == |parts|
  {
    forall i, j :: 0 <= i < |parts| && 0 <= j < |parts| && units[i] < parts[i].units
                   && parts[j].units > 0 && parts[j].unitBytes <= parts[i].unitBytes ==>
      Lag(parts[i], units[i], parts[j], units[j], 0)
  }

  function PrefixAt(idx: Index, p: Part, units: int, i: nat): int {
    if p.units > 0 && (units < p.units || p.mandatory || HasPrefix(idx, i)) then units else 0
  }

  function Prefixes(idx: Index, parts: seq<Part>, units: seq<int>): seq<int>
    requires |parts| == |units|
  {
    seq(|parts|, i requires 0 <= i < |parts| => PrefixAt(idx, parts[i], units[i], i))
  }

  // ---------------------------------------------------------------------------
  // Sums
  // ---------------------------------------------------------------------------

  lemma {:induction false} SpentUpdate(parts: seq<Part>, units: seq<int>, i: nat, v: int)
    requires |parts| == |units| && i < |parts| && parts[i].units > 0
    ensures Spent(parts, units[i := v]) == Spent(parts, units) + (v - units[i]) * parts[i].unitBytes
  {
    var n := |parts| - 1;
    if i == n {
      assert units[i := v][..n] == units[..n];
    } else {
      SpentUpdate(parts[..n], units[..n], i, v);
      assert units[i := v][..n] == units[..n][i := v];
    }
  }

  lemma {:induction false} SpentAppend(parts: seq<Part>, units: seq<int>, p: Part, u: int)
    requires |parts| == |units|
    ensures Spent(parts + [p], units + [u]) ==
              Spent(parts, units) + (if p.units == 0 then p.fixedBytes else u * p.unitBytes)
  {
    assert (parts + [p])[..|parts|] == parts && (units + [u])[..|parts|] == units;
  }

  lemma {:induction false} SpentMonotone(parts: seq<Part>, small: seq<int>, large: seq<int>)
    requires |parts| == |small| == |large| && AllSound(parts)
    requires forall i :: 0 <= i < |parts| && parts[i].units > 0 ==> small[i] <= large[i]
    ensures Spent(parts, small) <= Spent(parts, large)
  {
    if parts != [] {
      var n := |parts| - 1;
      SpentMonotone(parts[..n], small[..n], large[..n]);
      if parts[n].units > 0 { ProductMonotone(small[n], large[n], parts[n].unitBytes); }
    }
  }

  lemma {:induction false} SpentNonNegative(parts: seq<Part>)
    requires AllSound(parts)
    ensures Spent(parts, FullUnits(parts)) >= 0
  {
    if parts != [] {
      var n := |parts| - 1;
      SpentNonNegative(parts[..n]);
      assert FullUnits(parts)[..n] == FullUnits(parts[..n]);
      if parts[n].units > 0 { ProductMonotone(0, parts[n].units, parts[n].unitBytes); }
    }
  }

  // ---------------------------------------------------------------------------
  // Water filling
  // ---------------------------------------------------------------------------

  // A part between two rounds: open parts still hold only their first unit, and
  // every other part holds all of its units, having needed at most `level` bytes.
  predicate PartState(p: Part, units: int, level: int, open: bool) {
    && (open ==> p.units > 1 && units == 1)
    && (!open ==> units == p.units && (p.units > 0 ==> (p.units - 1) * p.unitBytes <= level))
  }

  ghost predicate Filling(parts: seq<Part>, limit: int, units: seq<int>, open: set<int>, budget: int, level: int) {
    && |units| == |parts| && AllSound(parts)
    && budget == limit - Spent(parts, units)
    && 0 <= level && level * |open| <= budget
    && (forall i :: i in open ==> 0 <= i < |parts|)
    && (forall i :: 0 <= i < |parts| ==> PartState(parts[i], units[i], level, i in open))
  }

  ghost predicate Ascending(active: seq<int>) {
    forall j, k :: 0 <= j < k < |active| ==> active[j] < active[k]
  }

  // `active` lists the open parts in source order.
  ghost predicate Lists(active: seq<int>, open: set<int>) {
    && Ascending(active) && |active| == |open|
    && (forall k :: 0 <= k < |active| ==> active[k] in open)
  }

  lemma {:induction false} ListedAll(active: seq<int>, open: set<int>, i: int)
    requires Lists(active, open) && i in open
    ensures i in active
  {
    var n := |active| - 1;
    if active == [] {
    } else if i != active[n] {
      ListedAll(active[..n], open - {active[n]}, i);
    }
  }

  lemma ShareBounds(budget: int, n: int, level: int)
    requires n > 0 && budget >= 0 && level * n <= budget
    ensures level <= budget / n && budget / n >= 0 && (budget / n) * n <= budget
  {
    if level > budget / n { ProductMonotone(budget / n + 1, level, n); }
  }

  // Filling one open part whose remainder is within the level.
  lemma FillOne(parts: seq<Part>, limit: int, units: seq<int>, open: set<int>, budget: int, level: int, i: int)
    requires Filling(parts, limit, units, open, budget, level) && i in open
    requires (parts[i].units - 1) * parts[i].unitBytes <= level
    ensures Filling(parts, limit, units[i := parts[i].units], open - {i},
                    budget - (parts[i].units - 1) * parts[i].unitBytes, level)
  {
    var filled := units[i := parts[i].units];
    SpentUpdate(parts, units, i, parts[i].units);
    LevelLeaves(level, |open|, budget, (parts[i].units - 1) * parts[i].unitBytes);
    forall j | 0 <= j < |parts| ensures PartState(parts[j], filled[j], level, j in open - {i}) {
      assert PartState(parts[j], units[j], level, j in open);
    }
  }

  lemma LevelLeaves(level: int, n: int, budget: int, taken: int)
    requires level * n <= budget && taken <= level
    ensures level * (n - 1) <= budget - taken
  {
    assert level * (n - 1) == level * n - level;
  }

  lemma RaiseLevel(parts: seq<Part>, limit: int, units: seq<int>, open: set<int>, budget: int, low: int, high: int)
    requires Filling(parts, limit, units, open, budget, low)
    requires low <= high && high * |open| <= budget
    ensures Filling(parts, limit, units, open, budget, high)
  {}

  // Of the first k parts of the list those that remain open, in order; the others of the list are open still.
  ghost predicate Sifted(parts: seq<Part>, active: seq<int>, remaining: seq<int>, open: set<int>, share: int, k: nat) {
    && k <= |active| && |remaining| <= k && |open| == |remaining| + |active| - k && Ascending(remaining)
    && (forall i :: i in open ==> 0 <= i < |parts|)
    && (forall j :: 0 <= j < |remaining| && k < |active| ==> remaining[j] < active[k])
    && (forall j :: k <= j < |active| ==> active[j] in open)
    && (forall j :: 0 <= j < |remaining| ==>
          remaining[j] in open && (parts[remaining[j]].units - 1) * parts[remaining[j]].unitBytes > share)
  }

  lemma SiftedOut(parts: seq<Part>, active: seq<int>, remaining: seq<int>, open: set<int>, share: int, k: nat)
    requires Sifted(parts, active, remaining, open, share, k) && Ascending(active) && k < |active|
    ensures Sifted(parts, active, remaining, open - {active[k]}, share, k + 1)
  {}

  lemma SiftedIn(parts: seq<Part>, active: seq<int>, remaining: seq<int>, open: set<int>, share: int, k: nat)
    requires Sifted(parts, active, remaining, open, share, k) && Ascending(active) && k < |active|
    requires (parts[active[k]].units - 1) * parts[active[k]].unitBytes > share
    ensures Sifted(parts, active, remaining + [active[k]], open, share, k + 1)
  {}

  // Every open part whose whole remainder fits in an equal share is filled up
  // and leaves the round; the rest are returned in `remaining`.
  method CapRound(parts: seq<Part>, limit: int, units0: seq<int>, active: seq<int>, ghost open0: set<int>,
                  budget0: int, ghost level: int)
    returns (units: seq<int>, remaining: seq<int>, ghost open: set<int>, budget: int, capped: bool)
    requires Filling(parts, limit, units0, open0, budget0, level) && Lists(active, open0)
    requires active != []
    ensures Filling(parts, limit, units, open, budget, budget0 / |active|) && Lists(remaining, open)
    ensures capped ==> |remaining| < |active|
    ensures !capped ==> remaining == active && units == units0 && budget == budget0
    ensures forall k :: 0 <= k < |remaining| ==>
              (parts[remaining[k]].units - 1) * parts[remaining[k]].unitBytes > budget0 / |active|
  {
    var share := budget0 / |active|;
    ShareBounds(budget0, |active|, level);
    RaiseLevel(parts, limit, units0, open0, budget0, level, share);
    units, remaining, open, budget, capped := units0, [], open0, budget0, false;
    for k := 0 to |active|
      invariant Filling(parts, limit, units, open, budget, share)
      invariant Sifted(parts, active, remaining, open, share, k) && (capped ==> |remaining| < k)
      invariant !capped ==> remaining == active[..k] && units == units0 && budget == budget0
    {
      var i := active[k];
      var capacity := (parts[i].units - units[i]) * parts[i].unitBytes;
      if capacity <= share {
        FillOne(parts, limit, units, open, budget, share, i);
        SiftedOut(parts, active, remaining, open, share, k);
        units := units[i := parts[i].units];
        budget := budget - capacity;
        open := open - {i};
        capped := true;
      } else {
        SiftedIn(parts, active, remaining, open, share, k);
        remaining := remaining + [i];
      }
    }
  }

  // The units an open part holds once it took its share and `turns` units of the residue.
  function Turn(p: Part, share: int, turns: int): int
    requires Sound(p)
  {
    if p.units == 0 then 0 else 1 + share / p.unitBytes + turns
  }

  predicate OpenState(p: Part, units: int, budget: int, turn: int) {
    && 1 <= units <= p.units && units <= turn
    && (units == p.units || units == turn || budget < p.unitBytes)
  }

  // Handing out the residue: parts before position `at` had their turn of this pass.
  ghost predicate Residue(parts: seq<Part>, limit: int, units: seq<int>, open: set<int>,
                          budget: int, share: int, pass: int, at: int) {
    && |units| == |parts| && AllSound(parts)
    && budget == limit - Spent(parts, units) && budget >= 0 && share >= 0
    && (forall i :: i in open ==> 0 <= i < |parts|)
    && (forall i :: 0 <= i < |parts| ==>
          if i in open then OpenState(parts[i], units[i], budget,
            Turn(parts[i], share, if i < at then pass + 1 else pass))
          else PartState(parts[i], units[i], share, false))
    && Fair(parts, units)
  }

  function At(active: seq<int>, k: nat, n: nat): int { if k < |active| then active[k] else n }

  // No open part lies strictly between two consecutive entries of the list.
  lemma Between(active: seq<int>, open: set<int>, n: nat, k: nat, i: int)
    requires Lists(active, open) && k < |active| && i in open
    requires forall j :: j in open ==> 0 <= j < n
    ensures i < At(active, k + 1, n) <==> i <= active[k]
    ensures i < At(active, 0, n) <==> false
  {
    ListedAll(active, open, i);
    var m :| 0 <= m < |active| && active[m] == i;
    assert active[k] in open;
    if m > k + 1 { assert active[k + 1] < active[m]; }
    if m < k { assert active[m] < active[k]; }
    if m > 0 { assert active[0] < active[m]; }
  }

  // The part with the greatest remainder above the share keeps room for its turn.
  lemma ShareLeavesRoom(p: Part, share: int)
    requires Sound(p) && p.units > 0 && share >= 0 && (p.units - 1) * p.unitBytes > share
    ensures 1 + share / p.unitBytes <= p.units
    ensures 0 <= share / p.unitBytes * p.unitBytes <= share
  {
    var q := share / p.unitBytes;
    if q > p.units - 1 { ProductMonotone(p.units - 1, q, p.unitBytes); }
  }

  // A part that fitted within the share holds no more units than an equally wide open part.
  lemma FilledBelowShare(p: Part, share: int)
    requires Sound(p) && p.units > 0 && share >= 0 && (p.units - 1) * p.unitBytes <= share
    ensures p.units <= 1 + share / p.unitBytes
  {
    var q := share / p.unitBytes;
    if p.units - 1 > q { ProductMonotone(q + 1, p.units - 1, p.unitBytes); }
  }

  lemma Shared(parts: seq<Part>, limit: int, units0: seq<int>, units: seq<int>, active: seq<int>, open: set<int>,
               budget0: int, budget: int, share: int)
    requires Filling(parts, limit, units0, open, budget0, share) && Lists(active, open)
    requires |units| == |parts| && budget == limit - Spent(parts, units) && budget >= 0
    requires forall k :: 0 <= k < |active| ==> (parts[active[k]].units - 1) * parts[active[k]].unitBytes > share
    requires forall i :: 0 <= i < |parts| && i !in open ==> units[i] == units0[i]
    requires forall k :: 0 <= k < |active| ==> units[active[k]] == Turn(parts[active[k]], share, 0)
    ensures Residue(parts, limit, units, open, budget, share, 0, 0)
    ensures forall i :: i in open ==> units[i] == Turn(parts[i], share, 0)
  {
    forall i | 0 <= i < |parts| ensures SharedPart(parts[i], units[i], budget, share, i in open) {
      assert PartState(parts[i], units0[i], share, i in open) && Sound(parts[i]);
      if i in open {
        ListedAll(active, open, i);
        var m :| 0 <= m < |active| && active[m] == i;
        OpenShared(parts[i], units[i], budget, share);
      } else {
        ClosedShared(parts[i], units[i], budget, share);
      }
    }
    SharedIsFair(parts, units, open, budget, share);
  }

  // A part after the shares were handed out.
  predicate SharedPart(p: Part, units: int, budget: int, share: int, open: bool)
    requires Sound(p)
  {
    && (if open then OpenState(p, units, budget, Turn(p, share, 0)) else PartState(p, units, share, false))
    && (open ==> units == Turn(p, share, 0))
    && (!open && p.units > 0 ==> units == p.units <= Turn(p, share, 0))
  }

  lemma OpenShared(p: Part, units: int, budget: int, share: int)
    requires Sound(p) && p.units > 1 && share >= 0 && (p.units - 1) * p.unitBytes > share
    requires units == Turn(p, share, 0)
    ensures SharedPart(p, units, budget, share, true)
  {
    ShareLeavesRoom(p, share);
  }

  lemma ClosedShared(p: Part, units: int, budget: int, share: int)
    requires Sound(p) && share >= 0 && PartState(p, units, share, false)
    ensures SharedPart(p, units, budget, share, false)
  {
    if p.units > 0 { FilledBelowShare(p, share); }
  }

  lemma SharedIsFair(parts: seq<Part>, units: seq<int>, open: set<int>, budget: int, share: int)
    requires |units| == |parts| && AllSound(parts)
    requires forall i :: 0 <= i < |parts| ==> SharedPart(parts[i], units[i], budget, share, i in open)
    ensures Fair(parts, units)
  {
    forall i, j | 0 <= i < |parts| && 0 <= j < |parts| && units[i] < parts[i].units
                  && parts[j].units > 0 && parts[i].unitBytes == parts[j].unitBytes
      ensures units[j] <= units[i] + 1
    {
      assert SharedPart(parts[i], units[i], budget, share, i in open);
      assert SharedPart(parts[j], units[j], budget, share, j in open);
    }
  }

  lemma ShareTaken(share: int, turns: int, budget: int, taken: int)
    requires budget >= share * turns && taken <= share
    ensures budget - taken >= share * (turns - 1)
  {
    assert share * turns == share * (turns - 1) + share;
  }

  // The first k parts of the list have taken their shares.
  ghost predicate Dealt(parts: seq<Part>, units0: seq<int>, units: seq<int>, active: seq<int>, open: set<int>,
                        share: int, k: nat) {
    && |units| == |units0| == |parts| && AllSound(parts) && k <= |active| && Lists(active, open)
    && (forall i :: i in open ==> 0 <= i < |parts| && parts[i].units > 0)
    && (forall i :: 0 <= i < |parts| && i !in open ==> units[i] == units0[i])
    && (forall j :: 0 <= j < k ==> units[active[j]] == Turn(parts[active[j]], share, 0))
    && (forall j :: k <= j < |active| ==> units[active[j]] == 1)
  }

  lemma DealtNext(parts: seq<Part>, units0: seq<int>, units: seq<int>, active: seq<int>, open: set<int>,
                  share: int, k: nat)
    requires Dealt(parts, units0, units, active, open, share, k) && k < |active|
    ensures var i := active[k];
            Dealt(parts, units0, units[i := units[i] + share / parts[i].unitBytes], active, open, share, k + 1)
  {}

  // What is left over pays the shares of the parts that have not taken theirs.
  ghost predicate Dealing(parts: seq<Part>, limit: int, units0: seq<int>, units: seq<int>, active: seq<int>,
                          open: set<int>, budget: int, share: int, k: nat) {
    && Dealt(parts, units0, units, active, open, share, k)
    && budget == limit - Spent(parts, units) && budget >= share * (|active| - k)
  }

  lemma DealStart(parts: seq<Part>, limit: int, units: seq<int>, active: seq<int>, open: set<int>, budget: int,
                  share: int)
    requires Filling(parts, limit, units, open, budget, share) && Lists(active, open)
    ensures Dealing(parts, limit, units, units, active, open, budget, share, 0)
  {
    forall i | i in open ensures 0 <= i < |parts| && parts[i].units > 0 && units[i] == 1 {
      assert PartState(parts[i], units[i], share, i in open);
    }
  }

  lemma DealNext(parts: seq<Part>, limit: int, units0: seq<int>, units: seq<int>, active: seq<int>, open: set<int>,
                 budget: int, share: int, k: nat)
    requires Dealing(parts, limit, units0, units, active, open, budget, share, k) && k < |active| && share >= 0
    requires (parts[active[k]].units - 1) * parts[active[k]].unitBytes > share
    ensures var i, taken := active[k], share / parts[active[k]].unitBytes;
            Dealing(parts, limit, units0, units[i := units[i] + taken], active, open,
                    budget - taken * parts[i].unitBytes, share, k + 1)
  {
    var i := active[k];
    assert i in open;
    ShareLeavesRoom(parts[i], share);
    var taken := share / parts[i].unitBytes;
    SpentUpdate(parts, units, i, units[i] + taken);
    ShareTaken(share, |active| - k, budget, taken * parts[i].unitBytes);
    DealtNext(parts, units0, units, active, open, share, k);
  }

  method ShareOut(parts: seq<Part>, limit: int, units0: seq<int>, active: seq<int>, ghost open: set<int>, budget0: int)
    returns (units: seq<int>, budget: int)
    requires active != []
    requires Filling(parts, limit, units0, open, budget0, budget0 / |active|) && Lists(active, open)
    requires forall k :: 0 <= k < |active| ==>
               (parts[active[k]].units - 1) * parts[active[k]].unitBytes > budget0 / |active|
    ensures Residue(parts, limit, units, open, budget, budget0 / |active|, 0, 0)
    ensures Lags(parts, units, open, budget, budget0 / |active|, 0, 0)
  {
    var share := budget0 / |active|;
    units, budget := units0, budget0;
    DealStart(parts, limit, units, active, open, budget, share);
    for k := 0 to |active|
      invariant Dealing(parts, limit, units0, units, active, open, budget, share, k)
    {
      var i := active[k];
      assert i in open;
      var taken := share / parts[i].unitBytes;
      DealNext(parts, limit, units0, units, active, open, budget, share, k);
      units := units[i := units[i] + taken];
      budget := budget - taken * parts[i].unitBytes;
    }
    Shared(parts, limit, units0, units, active, open, budget0, budget, share);
    NoneLate(parts, limit, units, open, budget, share);
  }

  // One more unit for an open part that has room for it and budget to pay for it.
  lemma TakeTurn(parts: seq<Part>, limit: int, units: seq<int>, open: set<int>, budget: int, share: int, pass: int,
      i: int)
    requires Residue(parts, limit, units, open, budget, share, pass, i)
    requires i in open && units[i] < parts[i].units && budget >= parts[i].unitBytes && pass >= 0
    ensures Residue(parts, limit, units[i := units[i] + 1], open, budget - parts[i].unitBytes, share, pass, i + 1)
  {
    var more := units[i := units[i] + 1];
    SpentUpdate(parts, units, i, units[i] + 1);
    forall j | 0 <= j < |parts| && j != i
      ensures if j in open then OpenState(parts[j], more[j], budget - parts[i].unitBytes,
              Turn(parts[j], share, if j < i + 1 then pass + 1 else pass))
              else PartState(parts[j], more[j], share, false)
    {}
    forall j, k | 0 <= j < |parts| && 0 <= k < |parts| && more[j] < parts[j].units
                  && parts[k].units > 0 && parts[j].unitBytes == parts[k].unitBytes
      ensures more[k] <= more[j] + 1
    {
      if k == i && j != i { assert j in open; }
    }
  }

  // A part that cannot take a unit has had its turn all the same.
  lemma SkipTurn(parts: seq<Part>, limit: int, units: seq<int>, open: set<int>, budget: int, share: int, pass: int,
      i: int)
    requires Residue(parts, limit, units, open, budget, share, pass, i) && i in open
    requires units[i] == parts[i].units || budget < parts[i].unitBytes
    ensures Residue(parts, limit, units, open, budget, share, pass, i + 1)
  {}

  lemma MoveOn(parts: seq<Part>, limit: int, units: seq<int>, open: set<int>, budget: int, share: int, pass: int,
      from: int, to: int)
    requires Residue(parts, limit, units, open, budget, share, pass, from)
    requires forall j :: j in open ==> (j < from <==> j < to)
    ensures Residue(parts, limit, units, open, budget, share, pass, to)
  {}

  lemma NextPass(parts: seq<Part>, limit: int, units: seq<int>, open: set<int>, budget: int, share: int, pass: int)
    requires Residue(parts, limit, units, open, budget, share, pass, |parts|)
    ensures Residue(parts, limit, units, open, budget, share, pass + 1, 0)
  {}

  // No open part before `at` can take another unit.
  ghost predicate Stuck(parts: seq<Part>, units: seq<int>, open: set<int>, budget: int, at: int)
    requires |units| == |parts|
  {
    forall i :: i in open && 0 <= i < |parts| && i < at ==> units[i] == parts[i].units || budget < parts[i].unitBytes
  }

  // ---- Bytes while the residue is handed out ----

  // This part missed a turn.
  ghost predicate Late(parts: seq<Part>, units: seq<int>, open: set<int>, share: int, pass: int, at: int, i: int)
    requires |units| == |parts| && AllSound(parts)
  {
    && i in open && 0 <= i < |parts| && units[i] < parts[i].units
    && units[i] < Turn(parts[i], share, if i < at then pass + 1 else pass)
  }

  // What is left over cannot bring another part far ahead of one that missed a turn.
  ghost predicate Lags(parts: seq<Part>, units: seq<int>, open: set<int>, budget: int, share: int, pass: int, at: int)
    requires |units| == |parts| && AllSound(parts)
  {
    forall i, j :: Late(parts, units, open, share, pass, at, i) && 0 <= j < |parts| && parts[j].units > 0
                   && parts[j].unitBytes <= parts[i].unitBytes ==>
      Lag(parts[i], units[i], parts[j], units[j], budget)
  }

  // Two parts in step differ by less than a unit of each.
  lemma InStep(p: Part, q: Part, v: int, share: int, pass: int)
    requires Sound(p) && Sound(q) && p.units > 0 && q.units > 0 && q.unitBytes <= p.unitBytes
    requires share >= 0 && pass >= 0 && (v <= Turn(q, share, pass + 1) || Bytes(q, v) <= share)
    ensures Bytes(q, v) < Bytes(p, Turn(p, share, pass)) + p.unitBytes + q.unitBytes
  {
    var a, b := share / p.unitBytes, share / q.unitBytes;
    assert a * p.unitBytes > share - p.unitBytes && b * q.unitBytes <= share;
    assert Bytes(p, Turn(p, share, pass)) == a * p.unitBytes + pass * p.unitBytes;
    ProductMonotone(q.unitBytes, p.unitBytes, pass);
    if v <= Turn(q, share, pass + 1) {
      ProductMonotone(v - 1, b + pass + 1, q.unitBytes);
      assert (b + pass + 1) * q.unitBytes == b * q.unitBytes + pass * q.unitBytes + q.unitBytes;
    }
  }

  // How far another part can have come when this one is next.
  lemma OtherInStep(parts: seq<Part>, limit: int, units: seq<int>, open: set<int>, budget: int, share: int, pass: int,
                    at: int, i: int, j: int)
    requires Residue(parts, limit, units, open, budget, share, pass, at) && pass >= 0
    requires i in open && 0 <= j < |parts| && parts[j].units > 0 && parts[j].unitBytes <= parts[i].unitBytes
    requires units[i] >= Turn(parts[i], share, pass)
    ensures Bytes(parts[j], units[j]) < Bytes(parts[i], units[i]) + parts[i].unitBytes + parts[j].unitBytes
  {
    InStep(parts[i], parts[j], units[j], share, pass);
    ProductMonotone(Turn(parts[i], share, pass) - 1, units[i] - 1, parts[i].unitBytes);
  }

  lemma TakeLags(parts: seq<Part>, limit: int, units: seq<int>, open: set<int>, budget: int, share: int, pass: int,
                 at: int)
    requires Residue(parts, limit, units, open, budget, share, pass, at) && pass >= 0
    requires Lags(parts, units, open, budget, share, pass, at)
    requires at in open && units[at] < parts[at].units && budget >= parts[at].unitBytes
    ensures Lags(parts, units[at := units[at] + 1], open, budget - parts[at].unitBytes, share, pass, at + 1)
  {
    var more := units[at := units[at] + 1];
    forall i, j | Late(parts, more, open, share, pass, at + 1, i) && 0 <= j < |parts| && parts[j].units > 0
                  && parts[j].unitBytes <= parts[i].unitBytes
      ensures Lag(parts[i], more[i], parts[j], more[j], budget - parts[at].unitBytes)
    {
      assert Late(parts, units, open, share, pass, at, i);
      OneMore(parts[j], units[j]);
    }
  }

  lemma OneMore(p: Part, u: int)
    ensures Bytes(p, u + 1) == Bytes(p, u) + p.unitBytes
  {}

  lemma SkipLags(parts: seq<Part>, limit: int, units: seq<int>, open: set<int>, budget: int, share: int, pass: int,
                 at: int)
    requires Residue(parts, limit, units, open, budget, share, pass, at) && pass >= 0
    requires Lags(parts, units, open, budget, share, pass, at)
    requires at in open && (units[at] == parts[at].units || budget < parts[at].unitBytes)
    ensures Lags(parts, units, open, budget, share, pass, at + 1)
  {
    forall i, j | Late(parts, units, open, share, pass, at + 1, i) && 0 <= j < |parts| && parts[j].units > 0
                  && parts[j].unitBytes <= parts[i].unitBytes
      ensures Lag(parts[i], units[i], parts[j], units[j], budget)
    {
      if !Late(parts, units, open, share, pass, at, i) {
        OtherInStep(parts, limit, units, open, budget, share, pass, at, i, j);
      }
    }
  }

  lemma MoveLags(parts: seq<Part>, units: seq<int>, open: set<int>, budget: int, share: int, pass: int,
                 from: int, to: int)
    requires |units| == |parts| && AllSound(parts) && Lags(parts, units, open, budget, share, pass, from)
    requires forall j :: j in open ==> (j < from <==> j < to)
    ensures Lags(parts, units, open, budget, share, pass, to)
  {
    forall i ensures Late(parts, units, open, share, pass, to, i) ==> Late(parts, units, open, share, pass, from, i) {}
  }

  lemma NextLags(parts: seq<Part>, units: seq<int>, open: set<int>, budget: int, share: int, pass: int)
    requires |units| == |parts| && AllSound(parts) && Lags(parts, units, open, budget, share, pass, |parts|)
    ensures Lags(parts, units, open, budget, share, pass + 1, 0)
  {
    forall i ensures Late(parts, units, open, share, pass + 1, 0, i) ==>
                       Late(parts, units, open, share, pass, |parts|, i) {}
  }

  lemma NoneLate(parts: seq<Part>, limit: int, units: seq<int>, open: set<int>, budget: int, share: int)
    requires Residue(parts, limit, units, open, budget, share, 0, 0)
    requires forall i :: i in open ==> units[i] == Turn(parts[i], share, 0)
    ensures Lags(parts, units, open, budget, share, 0, 0)
  {}

  lemma LagsAreFair(parts: seq<Part>, limit: int, units: seq<int>, open: set<int>, budget: int, share: int, pass: int)
    requires Residue(parts, limit, units, open, budget, share, pass, 0) && pass >= 0
    requires Lags(parts, units, open, budget, share, pass, 0)
    ensures FairInBytes(parts, units)
  {
    forall i, j | 0 <= i < |parts| && 0 <= j < |parts| && units[i] < parts[i].units
                  && parts[j].units > 0 && parts[j].unitBytes <= parts[i].unitBytes
      ensures Lag(parts[i], units[i], parts[j], units[j], 0)
    {
      assert i in open;
      if !Late(parts, units, open, share, pass, 0, i) {
        OtherInStep(parts, limit, units, open, budget, share, pass, 0, i, j);
      }
    }
  }

  lemma BeforeFirst(parts: seq<Part>, limit: int, units: seq<int>, active: seq<int>, open: set<int>, budget: int,
                    share: int, pass: int)
    requires Residue(parts, limit, units, open, budget, share, pass, 0) && Lists(active, open)
    ensures Residue(parts, limit, units, open, budget, share, pass, At(active, 0, |parts|))
    ensures forall j :: j in open ==> j >= At(active, 0, |parts|)
  {
    if active != [] {
      forall j | j in open ensures j >= active[0] { Between(active, open, |parts|, 0, j); }
    } else {
      forall j | j in open ensures false { ListedAll(active, open, j); }
    }
    MoveOn(parts, limit, units, open, budget, share, pass, 0, At(active, 0, |parts|));
  }

  lemma BehindEntry(parts: seq<Part>, limit: int, units: seq<int>, active: seq<int>, open: set<int>, budget: int,
                    share: int, pass: int, k: nat)
    requires Lists(active, open) && k < |active|
    requires Residue(parts, limit, units, open, budget, share, pass, active[k] + 1)
    ensures Residue(parts, limit, units, open, budget, share, pass, At(active, k + 1, |parts|))
    ensures forall j :: j in open ==> (j < At(active, k + 1, |parts|) <==> j < active[k] + 1)
  {
    forall j | j in open ensures j < At(active, k + 1, |parts|) <==> j < active[k] + 1 {
      Between(active, open, |parts|, k, j);
    }
    MoveOn(parts, limit, units, open, budget, share, pass, active[k] + 1, At(active, k + 1, |parts|));
  }

  // The first k parts of the list had their turn of this pass.
  ghost predicate Passing(parts: seq<Part>, limit: int, units: seq<int>, active: seq<int>, open: set<int>, budget: int,
                          share: int, pass: int, k: nat) {
    && Lists(active, open) && pass >= 0
    && Residue(parts, limit, units, open, budget, share, pass, At(active, k, |parts|))
    && Lags(parts, units, open, budget, share, pass, At(active, k, |parts|))
  }

  lemma PassStart(parts: seq<Part>, limit: int, units: seq<int>, active: seq<int>, open: set<int>, budget: int,
                  share: int, pass: int)
    requires Residue(parts, limit, units, open, budget, share, pass, 0) && Lists(active, open) && pass >= 0
    requires Lags(parts, units, open, budget, share, pass, 0)
    ensures Passing(parts, limit, units, active, open, budget, share, pass, 0)
    ensures Stuck(parts, units, open, budget, At(active, 0, |parts|))
  {
    BeforeFirst(parts, limit, units, active, open, budget, share, pass);
    MoveLags(parts, units, open, budget, share, pass, 0, At(active, 0, |parts|));
  }

  lemma PassTaken(parts: seq<Part>, limit: int, units: seq<int>, active: seq<int>, open: set<int>, budget: int,
                  share: int, pass: int, k: nat, i: int)
    requires Passing(parts, limit, units, active, open, budget, share, pass, k) && k < |active| && i == active[k]
    requires i in open && units[i] < parts[i].units && budget >= parts[i].unitBytes
    ensures Passing(parts, limit, units[i := units[i] + 1], active, open, budget - parts[i].unitBytes, share, pass,
                    k + 1)
  {
    var more, rest := units[i := units[i] + 1], budget - parts[i].unitBytes;
    TakeTurn(parts, limit, units, open, budget, share, pass, i);
    TakeLags(parts, limit, units, open, budget, share, pass, i);
    BehindEntry(parts, limit, more, active, open, rest, share, pass, k);
    MoveLags(parts, more, open, rest, share, pass, i + 1, At(active, k + 1, |parts|));
  }

  lemma PassSkipped(parts: seq<Part>, limit: int, units: seq<int>, active: seq<int>, open: set<int>, budget: int,
                    share: int, pass: int, k: nat, i: int)
    requires Passing(parts, limit, units, active, open, budget, share, pass, k) && k < |active| && i == active[k]
    requires i in open && (units[i] == parts[i].units || budget < parts[i].unitBytes)
    ensures Passing(parts, limit, units, active, open, budget, share, pass, k + 1)
    ensures Stuck(parts, units, open, budget, i) ==> Stuck(parts, units, open, budget, At(active, k + 1, |parts|))
  {
    SkipTurn(parts, limit, units, open, budget, share, pass, i);
    SkipLags(parts, limit, units, open, budget, share, pass, i);
    BehindEntry(parts, limit, units, active, open, budget, share, pass, k);
    MoveLags(parts, units, open, budget, share, pass, i + 1, At(active, k + 1, |parts|));
  }

  method ResiduePass(parts: seq<Part>, limit: int, units0: seq<int>, active: seq<int>, ghost open: set<int>,
                     budget0: int, ghost share: int, ghost pass: int)
    returns (units: seq<int>, budget: int, progress: bool)
    requires Residue(parts, limit, units0, open, budget0, share, pass, 0) && Lists(active, open) && pass >= 0
    requires Lags(parts, units0, open, budget0, share, pass, 0)
    ensures Residue(parts, limit, units, open, budget, share, pass + 1, 0)
    ensures Lags(parts, units, open, budget, share, pass + 1, 0)
    ensures progress ==> budget < budget0
    ensures !progress ==> budget == budget0 && Stuck(parts, units, open, budget, |parts|)
  {
    units, budget, progress := units0, budget0, false;
    PassStart(parts, limit, units, active, open, budget, share, pass);
    for k := 0 to |active|
      invariant Passing(parts, limit, units, active, open, budget, share, pass, k)
      invariant if progress then budget < budget0 else budget == budget0
      invariant !progress ==> Stuck(parts, units, open, budget, At(active, k, |parts|))
    {
      var i := active[k];
      if units[i] < parts[i].units && budget >= parts[i].unitBytes {
        PassTaken(parts, limit, units, active, open, budget, share, pass, k, i);
        units := units[i := units[i] + 1];
        budget := budget - parts[i].unitBytes;
        progress := true;
      } else {
        PassSkipped(parts, limit, units, active, open, budget, share, pass, k, i);
      }
    }
    NextLags(parts, units, open, budget, share, pass);
    NextPass(parts, limit, units, open, budget, share, pass);
  }

  method HandOutResidue(parts: seq<Part>, limit: int, units0: seq<int>, active: seq<int>, ghost open: set<int>,
                        budget0: int, ghost share: int)
    returns (units: seq<int>)
    requires Residue(parts, limit, units0, open, budget0, share, 0, 0) && Lists(active, open)
    requires Lags(parts, units0, open, budget0, share, 0, 0)
    ensures Allocation(parts, limit, units) && Maximal(parts, limit, units)
    ensures Fair(parts, units) && FairInBytes(parts, units)
  {
    var budget, progress := budget0, true;
    ghost var pass := 0;
    units := units0;
    while budget > 0 && progress
      invariant pass >= 0 && Residue(parts, limit, units, open, budget, share, pass, 0)
      invariant Lags(parts, units, open, budget, share, pass, 0)
      invariant !progress ==> Stuck(parts, units, open, budget, |parts|)
      decreases budget, progress
    {
      units, budget, progress := ResiduePass(parts, limit, units, active, open, budget, share, pass);
      pass := pass + 1;
    }
    LagsAreFair(parts, limit, units, open, budget, share, pass);
  }

  method FirstUnits(parts: seq<Part>, limit: int) returns (units: seq<int>, active: seq<int>, ghost open: set<int>)
    requires AllSound(parts) && Spent(parts, OneUnit(parts)) <= limit
    ensures units == OneUnit(parts)
    ensures Filling(parts, limit, units, open, limit - Spent(parts, units), 0) && Lists(active, open)
  {
    units, active, open := [], [], {};
    for i := 0 to |parts|
      invariant |units| == i && forall j :: 0 <= j < i ==> units[j] == (if parts[j].units > 0 then 1 else 0)
      invariant Lists(active, open) && forall j :: j in open ==> 0 <= j < i
      invariant forall j :: 0 <= j < i ==> PartState(parts[j], units[j], 0, j in open)
    {
      units := units + [if parts[i].units > 0 then 1 else 0];
      if parts[i].units > 1 {
        active, open := active + [i], open + {i};
      }
    }
  }

  // One unit for every adjustable part, then equal shares of what is left:
  // short parts return their unused budget to longer ones, and source order
  // resolves the rounding residue.
  method Allocate(parts: seq<Part>, limit: int) returns (units: seq<int>)
    requires AllSound(parts) && Spent(parts, OneUnit(parts)) <= limit
    ensures Allocation(parts, limit, units) && Maximal(parts, limit, units)
    ensures Fair(parts, units) && FairInBytes(parts, units)
  {
    var active;
    ghost var open;
    units, active, open := FirstUnits(parts, limit);
    var budget := limit - Spent(parts, units);
    ghost var level := 0;
    while active != [] && budget > 0
      invariant Filling(parts, limit, units, open, budget, level) && Lists(active, open)
      decreases |active|
    {
      var capped;
      ghost var share := budget / |active|;
      units, active, open, budget, capped := CapRound(parts, limit, units, active, open, budget, level);
      level := share;
      if !capped {
        units, budget := ShareOut(parts, limit, units, active, open, budget);
        units := HandOutResidue(parts, limit, units, active, open, budget, share);
        return;
      }
    }
    Exhausted(parts, limit, units, active, open, budget, level);
  }

  // Leaving the rounds early, either everything is filled or nothing but the first units was paid for.
  lemma Exhausted(parts: seq<Part>, limit: int, units: seq<int>, active: seq<int>, open: set<int>, budget: int,
      level: int)
    requires Filling(parts, limit, units, open, budget, level) && Lists(active, open)
    requires active == [] || budget <= 0
    ensures Allocation(parts, limit, units) && Maximal(parts, limit, units) && Fair(parts, units)
    ensures FairInBytes(parts, units)
  {
    if active == [] {
      forall i | i in open ensures false { ListedAll(active, open, i); }
      AllFilled(parts, limit, units, budget, level);
    } else {
      ProductMonotone(1, |active|, level);
      OnlyFirstUnits(parts, limit, units, open, budget);
    }
  }

  lemma AllFilled(parts: seq<Part>, limit: int, units: seq<int>, budget: int, level: int)
    requires Filling(parts, limit, units, {}, budget, level)
    ensures Allocation(parts, limit, units) && Maximal(parts, limit, units) && Fair(parts, units)
    ensures FairInBytes(parts, units)
  {
    forall i | 0 <= i < |parts| ensures units[i] == parts[i].units {
      assert PartState(parts[i], units[i], level, false);
    }
  }

  lemma OnlyFirstUnits(parts: seq<Part>, limit: int, units: seq<int>, open: set<int>, budget: int)
    requires Filling(parts, limit, units, open, budget, 0) && budget <= 0
    ensures Allocation(parts, limit, units) && Maximal(parts, limit, units) && Fair(parts, units)
    ensures FairInBytes(parts, units)
  {
    forall i | 0 <= i < |parts| ensures parts[i].units > 0 ==> units[i] == 1 {
      assert PartState(parts[i], units[i], 0, i in open);
      if i !in open && parts[i].units > 0 { ProductMonotone(1, parts[i].unitBytes, parts[i].units - 1); }
    }
  }

  // ---------------------------------------------------------------------------
  // The planner
  // ---------------------------------------------------------------------------

  // The index with its prefixes replaced by a fair, maximal allocation.
  ghost predicate Shortened(idx: Index, parts: seq<Part>, limit: int, out: Index) {
    exists units: seq<int> :: ShortenedTo(idx, parts, limit, units, out)
  }

  ghost predicate ShortenedTo(idx: Index, parts: seq<Part>, limit: int, units: seq<int>, out: Index) {
    && Allocation(parts, limit, units) && Maximal(parts, limit, units)
    && Fair(parts, units) && FairInBytes(parts, units)
    && out == idx.(prefixLengths := Prefixes(idx, parts, units))
  }

  // Everything the planner promises about its result.
  ghost predicate Outcome(idx: Index, columns: seq<Column>, limit: int, r: Result<Plan, PlanError>) {
    if !Adaptable(idx) then r == Success(Plan(idx, false))
    else if limit <= 0 then r == Failure(BadLimit)
    else match ScanAll(idx, columns)
      case Unadaptable => r == Success(Plan(idx, false))
      case Stopped(e) => r == Failure(e)
      case Parts(parts) =>
        if Fits(idx, parts, limit) then r == Success(Plan(idx, false))
        else if Spent(parts, OneUnit(parts)) > limit then r == Failure(TooLong(Spent(parts, OneUnit(parts))))
        else r.Success? && Shortened(idx, parts, limit, r.value.index) && (r.value.adjusted <==> r.value.index != idx)
  }

  method ColumnsByName(columns: seq<Column>) returns (byName: map<string, Column>)
    ensures byName == ByName(columns)
  {
    byName := map[];
    for k := 0 to |columns|
      invariant byName == ByName(columns[..k])
    {
      assert columns[..k + 1][..k] == columns[..k];
      byName := byName[columns[k].name := columns[k]];
    }
    assert columns[..|columns|] == columns;
  }

  method ScanColumns(idx: Index, byName: map<string, Column>)
    returns (scan: Scan, total: int, minimum: int, mandatory: bool)
    ensures scan == ScanFrom(idx, byName, [], 0)
    ensures scan.Parts? ==>
              AllSound(scan.parts) && |scan.parts| >= |idx.columns|
              && total == Spent(scan.parts, FullUnits(scan.parts))
              && minimum == Spent(scan.parts, OneUnit(scan.parts))
              && (mandatory <==> NeedsPrefix(idx, scan.parts))
  {
    var parts: seq<Part> := [];
    total, minimum, mandatory := 0, 0, false;
    for i := 0 to |idx.columns|
      invariant |parts| == i && AllSound(parts)
      invariant ScanFrom(idx, byName, parts, total) == ScanFrom(idx, byName, [], 0)
      invariant total == Spent(parts, FullUnits(parts)) && minimum == Spent(parts, OneUnit(parts))
      invariant mandatory <==> NeedsPrefix(idx, parts)
    {
      if idx.columns[i] !in byName { return Stopped(MissingColumn(idx.columns[i])), total, minimum, mandatory; }
      var found := ColumnPart(byName[idx.columns[i]]);
      if found.Invalid? { return Stopped(BadColumn(idx.columns[i])), total, minimum, mandatory; }
      if found.UnknownType? { return Unadaptable, total, minimum, mandatory; }
      ColumnPartSound(byName[idx.columns[i]]);
      var p := found.part;
      var limited := i < |idx.prefixLengths| && idx.prefixLengths[i] > 0;
      if p.units > 0 && limited && idx.prefixLengths[i] < p.units { p := p.(units := idx.prefixLengths[i]); }
      if p.units > 0 && p.units > (MAX_INT64 - total) / p.unitBytes {
        return Stopped(Overflow), total, minimum, mandatory;
      }
      FullAppend(parts, p);
      OneAppend(parts, p);
      NeedsAppend(idx, parts, p);
      mandatory := mandatory || (p.mandatory && !limited);
      minimum := minimum + (if p.units == 0 then p.fixedBytes else p.unitBytes);
      parts, total := parts + [p], total + (if p.units == 0 then p.fixedBytes else p.units * p.unitBytes);
    }
    scan := Parts(parts);
  }

  lemma FullAppend(parts: seq<Part>, p: Part)
    ensures Spent(parts + [p], FullUnits(parts + [p])) == Spent(parts, FullUnits(parts)) + FullBytes(p)
  {
    assert FullUnits(parts + [p]) == FullUnits(parts) + [p.units];
    SpentAppend(parts, FullUnits(parts), p, p.units);
  }

  lemma OneAppend(parts: seq<Part>, p: Part)
    requires Sound(p)
    ensures Spent(parts + [p], OneUnit(parts + [p])) ==
              Spent(parts, OneUnit(parts)) + (if p.units == 0 then p.fixedBytes else p.unitBytes)
  {
    var one := if p.units > 0 then 1 else 0;
    assert OneUnit(parts + [p]) == OneUnit(parts) + [one];
    SpentAppend(parts, OneUnit(parts), p, one);
  }

  lemma NeedsAppend(idx: Index, parts: seq<Part>, p: Part)
    ensures NeedsPrefix(idx, parts + [p]) <==> NeedsPrefix(idx, parts) || (p.mandatory && !HasPrefix(idx, |parts|))
  {
    var longer := parts + [p];
    assert longer[|parts|] == p;
    if NeedsPrefix(idx, parts) {
      var i :| 0 <= i < |parts| && parts[i].mandatory && !HasPrefix(idx, i);
      assert longer[i] == parts[i];
    }
    if NeedsPrefix(idx, longer) {
      var i :| 0 <= i < |longer| && longer[i].mandatory && !HasPrefix(idx, i);
      assert i < |parts| ==> parts[i] == longer[i];
    }
  }

  // Every part that is shortened, needs a prefix or had one gets its units as its prefix.
  method ChoosePrefixes(idx: Index, parts: seq<Part>, units: seq<int>) returns (prefixes: seq<int>)
    requires |parts| == |units|
    ensures prefixes == Prefixes(idx, parts, units)
  {
    prefixes := [];
    for i := 0 to |parts|
      invariant |prefixes| == i && forall j :: 0 <= j < i ==> prefixes[j] == PrefixAt(idx, parts[j], units[j], j)
    {
      var existing := i < |idx.prefixLengths| && idx.prefixLengths[i] > 0;
      var needed := parts[i].units != 0 && (units[i] < parts[i].units || parts[i].mandatory || existing);
      prefixes := prefixes + [if needed && parts[i].units > 0 then units[i] else 0];
    }
  }

  method PlanIndex(idx: Index, columns: seq<Column>, limit: int) returns (r: Result<Plan, PlanError>)
    ensures Outcome(idx, columns, limit, r)
  {
    if idx.primary || idx.unique || idx.unsupported || idx.columns == [] { return Success(Plan(idx, false)); }
    if limit <= 0 { return Failure(BadLimit); }
    var byName := ColumnsByName(columns);
    var scan, total, minimum, mandatory := ScanColumns(idx, byName);
    if scan.Stopped? { return Failure(scan.error); }
    if scan.Unadaptable? { return Success(Plan(idx, false)); }
    var parts := scan.parts;
    if total <= limit && !mandatory { return Success(Plan(idx, false)); }
    if minimum > limit { return Failure(TooLong(minimum)); }
    var units := Allocate(parts, limit);
    var prefixes := ChoosePrefixes(idx, parts, units);
    assert ShortenedTo(idx, parts, limit, units, idx.(prefixLengths := prefixes));
    if prefixes == idx.prefixLengths {
      assert idx.(prefixLengths := prefixes) == idx;
      return Success(Plan(idx, false));
    }
    return Success(Plan(idx.(prefixLengths := prefixes), true));
  }

  // ---------------------------------------------------------------------------
  // Main results
  // ---------------------------------------------------------------------------

  // The planner gives up on length exactly when no admissible prefixes exist.
  lemma TooLongIsNecessary(parts: seq<Part>, limit: int)
    requires AllSound(parts)
    ensures Spent(parts, OneUnit(parts)) <= limit <==> exists units: seq<int> :: Allocation(parts, limit, units)
  {
    if Spent(parts, OneUnit(parts)) <= limit {
      assert Allocation(parts, limit, OneUnit(parts));
    }
    forall units: seq<int> | Allocation(parts, limit, units)
      ensures Spent(parts, OneUnit(parts)) <= limit
    {
      SpentMonotone(parts, OneUnit(parts), units);
    }
  }

  function Shrunk(parts: seq<Part>, units: seq<int>): seq<Part>
    requires |parts| == |units|
  {
    seq(|parts|, i requires 0 <= i < |parts| => if parts[i].units > 0 then parts[i].(units := units[i]) else parts[i])
  }

  lemma {:induction false} ShrunkSpends(parts: seq<Part>, units: seq<int>)
    requires |parts| == |units| && AllSound(parts)
    requires forall i :: 0 <= i < |parts| && parts[i].units > 0 ==> units[i] >= 1
    ensures Spent(Shrunk(parts, units), FullUnits(Shrunk(parts, units))) == Spent(parts, units)
  {
    if parts != [] {
      var n := |parts| - 1;
      ShrunkSpends(parts[..n], units[..n]);
      assert Shrunk(parts, units)[..n] == Shrunk(parts[..n], units[..n]);
      assert FullUnits(Shrunk(parts, units))[..n] == FullUnits(Shrunk(parts[..n], units[..n]));
    }
  }

  // The column's units under the new prefix are exactly the allocated ones.
  lemma LimitedByPrefix(idx: Index, out: Index, raw: Part, p: Part, units: seq<int>, parts: seq<Part>, n: nat)
    requires |units| == |parts| && n < |parts| && p == parts[n] == Limited(raw, idx, n) && Sound(raw)
    requires if p.units == 0 then units[n] == 0 else 1 <= units[n] <= p.units
    requires out == idx.(prefixLengths := Prefixes(idx, parts, units))
    ensures Limited(raw, out, n) == Shrunk(parts, units)[n]
  {
    assert out.prefixLengths[n] == PrefixAt(idx, p, units[n], n);
  }

  // One step of a scan that runs to the end.
  ghost predicate Steps(idx: Index, columns: map<string, Column>, n: nat, p: Part, total: int) {
    && n < |idx.columns| && idx.columns[n] in columns
    && ColumnPart(columns[idx.columns[n]]).Known? && Sound(ColumnPart(columns[idx.columns[n]]).part)
    && p == Limited(ColumnPart(columns[idx.columns[n]]).part, idx, n)
    && (p.units > 0 ==> p.units <= (MAX_INT64 - total) / p.unitBytes)
  }

  lemma StepBack(idx: Index, columns: map<string, Column>, done: seq<Part>, p: Part, total: int)
    requires Steps(idx, columns, |done|, p, total)
    ensures ScanFrom(idx, columns, done, total) == ScanFrom(idx, columns, done + [p], total + FullBytes(p))
  {}

  lemma StepForward(idx: Index, columns: map<string, Column>, done: seq<Part>, total: int) returns (p: Part)
    requires |done| < |idx.columns| && ScanFrom(idx, columns, done, total).Parts?
    ensures Steps(idx, columns, |done|, p, total)
    ensures done + [p] <= ScanFrom(idx, columns, done, total).parts
    ensures ScanFrom(idx, columns, done, total) == ScanFrom(idx, columns, done + [p], total + FullBytes(p))
  {
    ColumnPartSound(columns[idx.columns[|done|]]);
    p := Limited(ColumnPart(columns[idx.columns[|done|]]).part, idx, |done|);
    ScanKeepsDone(idx, columns, done + [p], total + FullBytes(p));
  }

  lemma ShrunkStep(idx: Index, out: Index, columns: map<string, Column>, parts: seq<Part>, units: seq<int>,
                   n: nat, p: Part, total: int, smaller: int)
    requires |units| == |parts| && n < |parts| && out == idx.(prefixLengths := Prefixes(idx, parts, units))
    requires Steps(idx, columns, n, p, total) && p == parts[n] && smaller <= total
    requires if p.units == 0 then units[n] == 0 else 1 <= units[n] <= p.units
    ensures Steps(out, columns, n, Shrunk(parts, units)[n], smaller)
    ensures FullBytes(Shrunk(parts, units)[n]) <= FullBytes(p)
  {
    LimitedByPrefix(idx, out, ColumnPart(columns[idx.columns[n]]).part, p, units, parts, n);
    if p.units > 0 { GuardMonotone(p.units, units[n], p.unitBytes, MAX_INT64 - total, MAX_INT64 - smaller); }
  }

  ghost predicate Chosen(parts: seq<Part>, units: seq<int>) {
    |units| == |parts|
    && forall i :: 0 <= i < |parts| ==> if parts[i].units == 0 then units[i] == 0 else 1 <= units[i] <= parts[i].units
  }

  // Both scans advance over the next column.
  lemma BothAdvance(idx: Index, out: Index, columns: map<string, Column>, parts: seq<Part>, units: seq<int>,
                    n: nat, total: int, smaller: int) returns (more: int, less: int)
    requires Chosen(parts, units) && out == idx.(prefixLengths := Prefixes(idx, parts, units))
    requires n < |parts| == |idx.columns| && smaller <= total
             && ScanFrom(idx, columns, parts[..n], total) == Parts(parts)
    ensures less <= more && ScanFrom(idx, columns, parts[..n + 1], more) == Parts(parts)
    ensures ScanFrom(out, columns, Shrunk(parts, units)[..n], smaller)
            == ScanFrom(out, columns, Shrunk(parts, units)[..n + 1], less)
  {
    var p := FullAdvances(idx, columns, parts, n, total);
    ShrunkAdvances(idx, out, columns, parts, units, n, p, total, smaller);
    more, less := total + FullBytes(p), smaller + FullBytes(Shrunk(parts, units)[n]);
  }

  lemma FullAdvances(idx: Index, columns: map<string, Column>, parts: seq<Part>, n: nat, total: int)
    returns (p: Part)
    requires n < |parts| == |idx.columns| && ScanFrom(idx, columns, parts[..n], total) == Parts(parts)
    ensures p == parts[n] && Steps(idx, columns, n, p, total)
    ensures ScanFrom(idx, columns, parts[..n + 1], total + FullBytes(p)) == Parts(parts)
  {
    p := StepForward(idx, columns, parts[..n], total);
    assert (parts[..n] + [p])[n] == p == parts[n];
    assert parts[..n] + [p] == parts[..n + 1];
  }

  lemma ShrunkAdvances(idx: Index, out: Index, columns: map<string, Column>, parts: seq<Part>, units: seq<int>,
                       n: nat, p: Part, total: int, smaller: int)
    requires Chosen(parts, units) && out == idx.(prefixLengths := Prefixes(idx, parts, units))
    requires n < |parts| && p == parts[n] && Steps(idx, columns, n, p, total) && smaller <= total
    ensures FullBytes(Shrunk(parts, units)[n]) <= FullBytes(p)
    ensures ScanFrom(out, columns, Shrunk(parts, units)[..n], smaller)
            == ScanFrom(out, columns, Shrunk(parts, units)[..n + 1], smaller + FullBytes(Shrunk(parts, units)[n]))
  {
    var shrunk := Shrunk(parts, units);
    ShrunkStep(idx, out, columns, parts, units, n, p, total, smaller);
    StepBack(out, columns, shrunk[..n], shrunk[n], smaller);
    assert shrunk[..n] + [shrunk[n]] == shrunk[..n + 1];
  }

  // Scanning the shortened index finds exactly the shortened parts, without overflow.
  lemma {:induction false} ScanShortened(idx: Index, out: Index, columns: map<string, Column>,
                                         parts: seq<Part>, units: seq<int>, n: nat, total: int, smaller: int)
    requires Chosen(parts, units) && out == idx.(prefixLengths := Prefixes(idx, parts, units))
    requires n <= |parts| == |idx.columns| && smaller <= total
    requires ScanFrom(idx, columns, parts[..n], total) == Parts(parts)
    ensures ScanFrom(out, columns, Shrunk(parts, units)[..n], smaller) == Parts(Shrunk(parts, units))
    decreases |parts| - n
  {
    if n == |parts| {
      assert parts[..n] == parts && Shrunk(parts, units)[..n] == Shrunk(parts, units);
    } else {
      var more, less := BothAdvance(idx, out, columns, parts, units, n, total, smaller);
      ScanShortened(idx, out, columns, parts, units, n + 1, more, less);
    }
  }

  lemma {:induction false} ScanKeepsDone(idx: Index, columns: map<string, Column>, done: seq<Part>, total: int)
    requires ScanFrom(idx, columns, done, total).Parts?
    ensures done <= ScanFrom(idx, columns, done, total).parts
    ensures |ScanFrom(idx, columns, done, total).parts| == |idx.columns| || |done| > |idx.columns|
    decreases |idx.columns| - |done|
  {
    if |done| < |idx.columns| {
      var c := columns[idx.columns[|done|]];
      ColumnPartSound(c);
      var p := Limited(ColumnPart(c).part, idx, |done|);
      ScanKeepsDone(idx, columns, done + [p], total + FullBytes(p));
    }
  }

  lemma GuardMonotone(units: int, fewer: int, width: int, room: int, more: int)
    requires width >= 1 && 0 <= fewer <= units && room <= more && units <= room / width
    ensures fewer <= more / width && fewer * width <= units * width
  {
    ProductMonotone(fewer, units, width);
    if fewer > more / width {
      ProductMonotone(more / width + 1, fewer, width);
      ProductMonotone(units, room / width, width);
    }
  }

  // A shortened index respects the limit and needs no further prefix.
  lemma ShortenedFits(idx: Index, columns: seq<Column>, limit: int, out: Index)
    requires ScanAll(idx, columns).Parts? && Shortened(idx, ScanAll(idx, columns).parts, limit, out)
    ensures ScanAll(out, columns).Parts? && Fits(out, ScanAll(out, columns).parts, limit)
  {
    var parts := ScanAll(idx, columns).parts;
    var units: seq<int> :| ShortenedTo(idx, parts, limit, units, out);
    ScanKeepsDone(idx, ByName(columns), [], 0);
    assert parts[..0] == [] && Shrunk(parts, units)[..0] == [];
    ScanShortened(idx, out, ByName(columns), parts, units, 0, 0, 0);
    ScanIsSound(idx, ByName(columns), [], 0);
    ShrunkSpends(parts, units);
    forall i | 0 <= i < |parts| && Shrunk(parts, units)[i].mandatory
      ensures HasPrefix(out, i)
    {
      assert Sound(parts[i]);
    }
  }

  lemma {:induction false} ScanIsSound(idx: Index, columns: map<string, Column>, done: seq<Part>, total: int)
    requires ScanFrom(idx, columns, done, total).Parts? && AllSound(done)
    ensures AllSound(ScanFrom(idx, columns, done, total).parts)
    decreases |idx.columns| - |done|
  {
    if |done| < |idx.columns| {
      var c := columns[idx.columns[|done|]];
      ColumnPartSound(c);
      var p := Limited(ColumnPart(c).part, idx, |done|);
      ScanIsSound(idx, columns, done + [p], total + FullBytes(p));
    }
  }

  // Planning the planner's own result changes nothing.
  lemma ReplanningIsStable(idx: Index, columns: seq<Column>, limit: int,
                           first: Result<Plan, PlanError>, second: Result<Plan, PlanError>)
    requires Outcome(idx, columns, limit, first) && first.Success?
    requires Outcome(first.value.index, columns, limit, second)
    ensures second == Success(Plan(first.value.index, false))
  {
    if Adaptable(idx) && ScanAll(idx, columns).Parts? {
      var parts := ScanAll(idx, columns).parts;
      if !Fits(idx, parts, limit) { ShortenedFits(idx, columns, limit, first.value.index); }
    }
  }
}
