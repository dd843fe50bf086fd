// Tokens whose spelling must stay: EXTRACT fields, interval units, collations and type names
// (the middle of normalizeOscarViewForSource in datamigrate/oscar_view.go).
module ViewKeep {
  import opened Wrappers
  import opened Encoding
  import opened StringLiterals
  import opened ViewLexer
  import opened ViewPairs

  predicate Unit(w: Word) { w in {YEAR, MONTH, DAY, HOUR, MINUTE, SECOND, TO} }

  predicate TypeWord(w: Word) { w in {PRECISION, VARYING, WITH, WITHOUT, TIME, ZONE} }

  predicate DoubleColon(p: seq<Token>, i: int) { 0 <= i < |p| && p[i].text == [COLON, COLON] }

  // ---- What is kept because of the token at i ----

  ghost predicate FieldKept(u: Unicode, p: seq<Token>, closeAt: map<int, int>, i: int, j: int) {
    && WordAt(u, p, i) == EXTRACT && i + 1 in closeAt
    && i + 2 <= j < closeAt[i + 1] && forall k :: i + 2 <= k <= j ==> WordAt(u, p, k) != FROM
  }

  ghost predicate UnitKept(u: Unicode, p: seq<Token>, i: int, j: int) {
    && WordAt(u, p, i) == INTERVAL && LiteralAt(p, i + 1)
    && i + 2 <= j < |p| && forall k :: i + 2 <= k <= j ==> Unit(WordAt(u, p, k))
  }

  // The last position of the dotted name that begins at a.
  function NameStop(p: seq<Token>, a: int): (e: int)
    requires a <= |p|
    ensures a <= e <= |p| && (e - a) % 2 == 0
    decreases |p| - a
  {
    if IdentAt(p, a) && Is(p, a + 1, DOT) then NameStop(p, a + 2) else a
  }

  predicate NameKept(p: seq<Token>, a: int, j: int) {
    a <= |p| && a <= j <= NameStop(p, a) && (j - a) % 2 == 0 && IdentAt(p, j)
  }

  predicate AsAt(u: Unicode, p: seq<Token>, open: int, a: int) {
    && 0 <= open <= a < |p| && WordAt(u, p, a) == AS && !Is(p, a, OPEN) && Depth(p, a) == Depth(p, open) + 1
  }

  ghost predicate AsBefore(u: Unicode, p: seq<Token>, open: int, j: int) {
    exists a :: open < a < j && AsAt(u, p, open, a)
  }

  // Everything after AS to the end of a CAST, for an AS directly inside its parentheses.
  ghost predicate CastKept(u: Unicode, p: seq<Token>, closeAt: map<int, int>, i: int, j: int) {
    && WordAt(u, p, i) == CAST && i + 1 in closeAt && j < closeAt[i + 1] && AsBefore(u, p, i + 1, j)
  }

  function TypeEnd(p: seq<Token>, closeAt: map<int, int>, i: int): int
    requires i < |p|
  {
    var e := NameStop(p, i + 1);
    if e + 1 in closeAt then closeAt[e + 1] else e
  }

  ghost predicate TypeWordKept(u: Unicode, p: seq<Token>, closeAt: map<int, int>, i: int, j: int) {
    && DoubleColon(p, i) && TypeEnd(p, closeAt, i) < j < |p|
    && forall k :: TypeEnd(p, closeAt, i) < k <= j ==> TypeWord(WordAt(u, p, k))
  }

  ghost predicate Keeps(u: Unicode, p: seq<Token>, closeAt: map<int, int>, i: int, j: int) {
    || FieldKept(u, p, closeAt, i, j)
    || UnitKept(u, p, i, j)
    || (WordAt(u, p, i) == COLLATE && NameKept(p, i + 1, j))
    || CastKept(u, p, closeAt, i, j)
    || (DoubleColon(p, i) && NameKept(p, i + 1, j))
    || TypeWordKept(u, p, closeAt, i, j)
  }

  // ---- The loops that find them ----

  method KeepField(u: Unicode, p: seq<Token>, closeAt: map<int, int>, i: int, preserve: set<int>) returns (r: set<int>)
    ensures forall j :: j in r <==> j in preserve || FieldKept(u, p, closeAt, i, j)
  {
    r := preserve;
    if WordAt(u, p, i) == EXTRACT && i + 1 in closeAt {
      var j := i + 2;
      while j < closeAt[i + 1] && WordAt(u, p, j) != FROM
        invariant i + 2 <= j && (i + 2 < j ==> j <= closeAt[i + 1])
        invariant forall k :: i + 2 <= k < j ==> WordAt(u, p, k) != FROM
        invariant forall k :: k in r <==> k in preserve || i + 2 <= k < j
      {
        r := r + {j};
        j := j + 1;
      }
    }
  }

  method KeepUnits(u: Unicode, p: seq<Token>, i: int, preserve: set<int>) returns (r: set<int>)
    ensures forall j :: j in r <==> j in preserve || UnitKept(u, p, i, j)
  {
    r := preserve;
    if WordAt(u, p, i) == INTERVAL && LiteralAt(p, i + 1) {
      var j := i + 2;
      while j < |p|
        invariant i + 2 <= j <= |p|
        invariant forall k :: i + 2 <= k < j ==> Unit(WordAt(u, p, k))
        invariant forall k :: k in r <==> k in preserve || i + 2 <= k < j
      {
        if !Unit(WordAt(u, p, j)) { break; }
        r := r + {j};
        j := j + 1;
      }
    }
  }

  predicate PartBefore(a: int, j: int, k: int) { a <= k < j && (k - a) % 2 == 0 }

  lemma PartNext(a: int, j: int)
    requires a <= j && (j - a) % 2 == 0
    ensures (j + 2 - a) % 2 == 0 && forall k :: PartBefore(a, j + 2, k) <==> PartBefore(a, j, k) || k == j
  {
    forall k ensures PartBefore(a, j + 2, k) <==> PartBefore(a, j, k) || k == j {
      if k == j + 1 { assert (k - a) % 2 == 1; }
    }
  }

  method KeepName(p: seq<Token>, a: int, preserve: set<int>) returns (r: set<int>, stop: int)
    requires a <= |p|
    ensures stop == NameStop(p, a)
    ensures forall j :: j in r <==> j in preserve || NameKept(p, a, j)
  {
    r := preserve;
    var j := a;
    while IdentAt(p, j)
      invariant a <= j <= |p| && (j - a) % 2 == 0 && NameStop(p, a) == NameStop(p, j)
      invariant forall k :: k in r <==> k in preserve || (PartBefore(a, j, k) && IdentAt(p, k))
      decreases |p| - j
    {
      PartNext(a, j);
      r := r + {j};
      if !Is(p, j + 1, DOT) { break; }
      j := j + 2;
    }
    stop := j;
  }

  lemma ClosesInside(p: seq<Token>, o: int, end: int, j: int, c: int)
    requires Closes(p, o, end) && Closes(p, j, c) && o < j < end && Depth(p, j) == Depth(p, o) + 1
    ensures j < c < end && Depth(p, c + 1) == Depth(p, j)
    ensures forall k :: j < k <= c ==> Depth(p, k) > Depth(p, j)
  {}

  lemma DepthSame(p: seq<Token>, j: nat)
    requires j < |p| && !Is(p, j, OPEN) && !Is(p, j, CLOSE)
    ensures Depth(p, j + 1) == Depth(p, j)
  {}

  lemma NotClosing(p: seq<Token>, o: int, end: int, j: int)
    requires Closes(p, o, end) && o < j < end && Depth(p, j) == Depth(p, o) + 1
    ensures !Is(p, j, CLOSE)
  {
    assert Depth(p, j + 1) > Depth(p, o);
  }

  // The scan for AS that skips nested parentheses.
  function AsFrom(u: Unicode, p: seq<Token>, closeAt: map<int, int>, j: int, end: int): (a: int)
    ensures a < end ==> WordAt(u, p, a) == AS
    decreases end - j
  {
    if j >= end then end
    else if Is(p, j, OPEN) then
      if j in closeAt && closeAt[j] >= j then AsFrom(u, p, closeAt, closeAt[j] + 1, end) else end
    else if WordAt(u, p, j) == AS then j
    else AsFrom(u, p, closeAt, j + 1, end)
  }

  // Directly inside the parentheses, with no AS so far.
  ghost predicate Searching(u: Unicode, p: seq<Token>, open: int, end: int, j: int) {
    && 0 <= open < j <= end < |p| && Depth(p, j) == Depth(p, open) + 1 && !AsBefore(u, p, open, j)
  }

  lemma SkipsNested(u: Unicode, p: seq<Token>, open: int, end: int, j: int, c: int)
    requires Searching(u, p, open, end, j) && Closes(p, open, end) && Closes(p, j, c) && j < end
    ensures j < c && Searching(u, p, open, end, c + 1)
  {
    ClosesInside(p, open, end, j, c);
    forall a | open < a < c + 1 ensures !AsAt(u, p, open, a) {
      assert a < j ==> !AsAt(u, p, open, a);
    }
  }

  lemma SkipsPlain(u: Unicode, p: seq<Token>, open: int, end: int, j: int)
    requires Searching(u, p, open, end, j) && Closes(p, open, end) && j < end && !Is(p, j, OPEN)
    ensures WordAt(u, p, j) != AS ==> Searching(u, p, open, end, j + 1)
    ensures WordAt(u, p, j) == AS ==> AsAt(u, p, open, j)
  {
    NotClosing(p, open, end, j);
    DepthSame(p, j);
    if WordAt(u, p, j) != AS { AsLater(u, p, open, j); }
  }

  lemma SearchStep(u: Unicode, p: seq<Token>, pairs: Pairs, open: int, end: int, j: int)
    requires Paired(u, p, pairs) && open in pairs.closeAt && end == pairs.closeAt[open] && j < end
    requires Searching(u, p, open, end, j)
    ensures if Is(p, j, OPEN) then j in pairs.closeAt && j < pairs.closeAt[j]
            && Searching(u, p, open, end, pairs.closeAt[j] + 1)
            else if WordAt(u, p, j) == AS then AsAt(u, p, open, j)
            else Searching(u, p, open, end, j + 1)
  {
    assert PairedAt(p, pairs.closeAt, open);
    if Is(p, j, OPEN) {
      assert PairedAt(p, pairs.closeAt, j);
      SkipsNested(u, p, open, end, j, pairs.closeAt[j]);
    } else {
      SkipsPlain(u, p, open, end, j);
    }
  }

  // The scan stops at the first AS that lies directly inside the parentheses.
  lemma {:induction false} AsFromIsFirst(u: Unicode, p: seq<Token>, pairs: Pairs, open: int, end: int, j: int)
    requires Paired(u, p, pairs) && open in pairs.closeAt && end == pairs.closeAt[open]
    requires Searching(u, p, open, end, j)
    ensures var a := AsFrom(u, p, pairs.closeAt, j, end);
            open < a && (a < end ==> AsAt(u, p, open, a)) && !AsBefore(u, p, open, a)
    decreases end - j
  {
    if j < end {
      SearchStep(u, p, pairs, open, end, j);
      if Is(p, j, OPEN) {
        var behind := pairs.closeAt[j] + 1;
        AsFromIsFirst(u, p, pairs, open, end, behind);
        assert AsFrom(u, p, pairs.closeAt, j, end) == AsFrom(u, p, pairs.closeAt, behind, end);
      } else if WordAt(u, p, j) != AS {
        var next := j + 1;
        AsFromIsFirst(u, p, pairs, open, end, next);
        assert AsFrom(u, p, pairs.closeAt, j, end) == AsFrom(u, p, pairs.closeAt, next, end);
      }
    }
  }

  lemma AsIs(u: Unicode, p: seq<Token>, open: int, end: int, a: int, x: int)
    requires open < a && (a < end ==> AsAt(u, p, open, a)) && !AsBefore(u, p, open, a) && x <= end
    ensures AsBefore(u, p, open, x) <==> a < x
  {
    if AsBefore(u, p, open, x) { AsNotEarlier(u, p, open, a, x); }
  }

  lemma AsLater(u: Unicode, p: seq<Token>, open: int, j: int)
    requires !AsBefore(u, p, open, j) && WordAt(u, p, j) != AS
    ensures !AsBefore(u, p, open, j + 1)
  {}

  lemma AsNotEarlier(u: Unicode, p: seq<Token>, open: int, j: int, x: int)
    requires !AsBefore(u, p, open, j) && AsBefore(u, p, open, x)
    ensures j < x
  {
    var a :| open < a < x && AsAt(u, p, open, a);
    assert a >= j;
  }

  method KeepCast(u: Unicode, p: seq<Token>, pairs: Pairs, i: nat, preserve: set<int>) returns (r: set<int>)
    requires Paired(u, p, pairs)
    ensures forall j :: j in r <==> j in preserve || CastKept(u, p, pairs.closeAt, i, j)
  {
    r := preserve;
    if WordAt(u, p, i) == CAST && i + 1 in pairs.closeAt {
      r := KeepFromAs(u, p, pairs.closeAt, i + 2, pairs.closeAt[i + 1], preserve);
      CastStarts(u, p, pairs, i + 1);
      ghost var end := pairs.closeAt[i + 1];
      AsFromIsFirst(u, p, pairs, i + 1, end, i + 2);
      forall j | j < end ensures j in r <==> j in preserve || CastKept(u, p, pairs.closeAt, i, j) {
        AsIs(u, p, i + 1, end, AsFrom(u, p, pairs.closeAt, i + 2, end), j);
      }
    }
  }

  lemma CastStarts(u: Unicode, p: seq<Token>, pairs: Pairs, open: int)
    requires Paired(u, p, pairs) && open in pairs.closeAt
    ensures Searching(u, p, open, pairs.closeAt[open], open + 1)
  {
    assert PairedAt(p, pairs.closeAt, open);
  }

  method KeepFromAs(u: Unicode, p: seq<Token>, closeAt: map<int, int>, start: int, end: int,
      preserve: set<int>) returns (r: set<int>)
    requires forall o :: PairedAt(p, closeAt, o)
    ensures forall j :: j in r <==> j in preserve || AsFrom(u, p, closeAt, start, end) < j < end
  {
    r := preserve;
    var j := start;
    while j < end
      invariant AsFrom(u, p, closeAt, start, end) == AsFrom(u, p, closeAt, j, end)
    {
      if Is(p, j, OPEN) {
        if j !in closeAt { return; }
        assert PairedAt(p, closeAt, j);
        j := closeAt[j];
      } else if WordAt(u, p, j) == AS {
        var k := j + 1;
        while k < end
          invariant j < k && (j + 1 < k ==> k <= end)
          invariant forall m :: m in r <==> m in preserve || j < m < k
        {
          r := r + {k};
          k := k + 1;
        }
        return;
      }
      j := j + 1;
    }
  }

  method KeepTypeWords(u: Unicode, p: seq<Token>, closeAt: map<int, int>, i: int, stop: int,
      preserve: set<int>) returns (r: set<int>)
    requires 0 <= i < |p| && DoubleColon(p, i) && stop == NameStop(p, i + 1)
    ensures forall j :: j in r <==> j in preserve || TypeWordKept(u, p, closeAt, i, j)
  {
    r := preserve;
    var j := if stop + 1 in closeAt then closeAt[stop + 1] else stop;
    var k := j + 1;
    while k < |p|
      invariant j < k && (j + 1 < k ==> k <= |p|)
      invariant forall m :: j < m < k ==> TypeWord(WordAt(u, p, m))
      invariant forall m :: m in r <==> m in preserve || j < m < k
    {
      if !TypeWord(WordAt(u, p, k)) { break; }
      r := r + {k};
      k := k + 1;
    }
  }

  ghost predicate Preserved(u: Unicode, p: seq<Token>, closeAt: map<int, int>, n: int, preserve: set<int>) {
    forall j :: j in preserve <==> exists i :: 0 <= i < n && Keeps(u, p, closeAt, i, j)
  }

  method Preserve(u: Unicode, p: seq<Token>, pairs: Pairs) returns (preserve: set<int>)
    requires Paired(u, p, pairs)
    ensures Preserved(u, p, pairs.closeAt, |p|, preserve)
  {
    preserve := {};
    var closeAt := pairs.closeAt;
    for i := 0 to |p|
      invariant Preserved(u, p, closeAt, i, preserve)
    {
      ghost var was := preserve;
      preserve := KeepField(u, p, closeAt, i, preserve);
      preserve := KeepUnits(u, p, i, preserve);
      if WordAt(u, p, i) == COLLATE { var stop; preserve, stop := KeepName(p, i + 1, preserve); }
      preserve := KeepCast(u, p, pairs, i, preserve);
      if DoubleColon(p, i) {
        var stop;
        preserve, stop := KeepName(p, i + 1, preserve);
        preserve := KeepTypeWords(u, p, closeAt, i, stop, preserve);
      }
      assert forall j :: j in preserve <==> j in was || Keeps(u, p, closeAt, i, j);
      PreservedStep(u, p, closeAt, i, was, preserve);
    }
  }

  lemma PreservedStep(u: Unicode, p: seq<Token>, closeAt: map<int, int>, i: int, was: set<int>, now: set<int>)
    requires 0 <= i && Preserved(u, p, closeAt, i, was)
    requires forall j :: j in now <==> j in was || Keeps(u, p, closeAt, i, j)
    ensures Preserved(u, p, closeAt, i + 1, now)
  {
    forall j ensures j in now <==> exists k :: 0 <= k < i + 1 && Keeps(u, p, closeAt, k, j) {
      if j in was {
        var k :| 0 <= k < i && Keeps(u, p, closeAt, k, j);
      }
    }
  }
}
