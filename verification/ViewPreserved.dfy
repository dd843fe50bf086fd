// Which tokens of a view keep their spelling, told from the text around them (datamigrate/oscar_view.go).
module ViewPreserved {
  import opened Wrappers
  import opened ViewLexer
  import opened ViewPairs
  import opened ViewKeep
  import opened ViewNames

  // From a on, names and dots alternate up to e.
  ghost predicate Dotted(p: seq<Token>, a: int, e: int) {
    && a <= e <= |p| && (e - a) % 2 == 0
    && forall k :: a <= k < e && (k - a) % 2 == 0 ==> IdentAt(p, k) && Is(p, k + 1, DOT)
  }

  // A part of the dotted name that begins at a.
  ghost predicate PartOfName(p: seq<Token>, a: int, j: int) { Dotted(p, a, j) && IdentAt(p, j) }

  ghost predicate NameStopsAt(p: seq<Token>, a: int, e: int) {
    Dotted(p, a, e) && !(IdentAt(p, e) && Is(p, e + 1, DOT))
  }

  // The field of an EXTRACT: everything up to its FROM.
  ghost predicate IsField(u: Unicode, p: seq<Token>, i: int, j: int) {
    && WordAt(u, p, i) == EXTRACT && i + 2 <= j && (forall k :: i + 2 <= k <= j ==> WordAt(u, p, k) != FROM)
    && InFrontOfClose(p, i + 1, j)
  }

  ghost predicate InFrontOfClose(p: seq<Token>, o: int, j: int) { exists c :: Closes(p, o, c) && j < c }

  // The units behind the literal of an INTERVAL.
  ghost predicate IsIntervalUnit(u: Unicode, p: seq<Token>, i: int, j: int) {
    && WordAt(u, p, i) == INTERVAL && LiteralAt(p, i + 1) && i + 2 <= j < |p|
    && forall k :: i + 2 <= k <= j ==> WordAt(u, p, k) in {YEAR, MONTH, DAY, HOUR, MINUTE, SECOND, TO}
  }

  // The type of a CAST: everything behind an AS directly inside its parentheses.
  ghost predicate IsCastType(u: Unicode, p: seq<Token>, i: int, j: int) {
    WordAt(u, p, i) == CAST && InFrontOfClose(p, i + 1, j) && BehindAs(u, p, i + 1, j)
  }

  ghost predicate BehindAs(u: Unicode, p: seq<Token>, o: int, j: int) {
    && 0 <= o <= |p|
    && exists a :: o < a < j && a < |p| && WordAt(u, p, a) == AS && !Is(p, a, OPEN) && Depth(p, a) == Depth(p, o) + 1
  }

  // Where a type behind :: ends, its arguments included.
  ghost predicate TypeStopsAt(p: seq<Token>, a: int, e: int) {
    exists s :: NameStopsAt(p, a, s) && ArgumentsEnd(p, s, e)
  }

  ghost predicate ArgumentsEnd(p: seq<Token>, s: int, e: int) {
    if Is(p, s + 1, OPEN) then Closes(p, s + 1, e) else e == s
  }

  // The words of a type of several words.
  ghost predicate IsTypeWord(u: Unicode, p: seq<Token>, a: int, j: int) {
    exists e :: TypeStopsAt(p, a, e) && e < j < |p|
                && forall k :: e < k <= j ==> WordAt(u, p, k) in {PRECISION, VARYING, WITH, WITHOUT, TIME, ZONE}
  }

  ghost predicate KeptFor(u: Unicode, p: seq<Token>, i: int, j: int) {
    || IsField(u, p, i, j) || IsIntervalUnit(u, p, i, j) || IsCastType(u, p, i, j)
    || (WordAt(u, p, i) == COLLATE && PartOfName(p, i + 1, j))
    || (0 <= i < |p| && p[i].text == [COLON, COLON] && (PartOfName(p, i + 1, j) || IsTypeWord(u, p, i + 1, j)))
  }

  // ---- Dotted names ----

  lemma DottedNext(p: seq<Token>, a: int, e: int)
    requires IdentAt(p, a) && Is(p, a + 1, DOT) && a + 2 <= |p|
    ensures e > a ==> (Dotted(p, a, e) <==> Dotted(p, a + 2, e))
  {
    if e > a && Dotted(p, a, e) {
      forall k | a + 2 <= k < e && (k - (a + 2)) % 2 == 0 ensures IdentAt(p, k) && Is(p, k + 1, DOT) {
        assert (k - a) % 2 == 0;
      }
    }
    if e > a && Dotted(p, a + 2, e) {
      forall k | a <= k < e && (k - a) % 2 == 0 ensures IdentAt(p, k) && Is(p, k + 1, DOT) {
        if k > a { assert k != a + 1 && (k - (a + 2)) % 2 == 0; }
      }
    }
  }

  lemma DottedFirst(p: seq<Token>, a: int, e: int)
    requires Dotted(p, a, e) && e > a
    ensures IdentAt(p, a) && Is(p, a + 1, DOT)
  {
    var k := a;
    assert (k - a) % 2 == 0;
  }

  lemma DottedEnds(p: seq<Token>, a: int, e: int)
    requires Dotted(p, a, e) && !(IdentAt(p, a) && Is(p, a + 1, DOT))
    ensures e == a
  {
    if e > a { DottedFirst(p, a, e); }
  }

  lemma {:induction false} StopIsThere(p: seq<Token>, a: nat, e: int)
    requires a <= |p|
    ensures NameStopsAt(p, a, e) <==> e == NameStop(p, a)
    decreases |p| - a
  {
    if IdentAt(p, a) && Is(p, a + 1, DOT) {
      StopIsThere(p, a + 2, e);
      DottedNext(p, a, e);
    } else if NameStopsAt(p, a, e) {
      DottedEnds(p, a, e);
    }
  }

  lemma {:induction false} PartIsKept(p: seq<Token>, a: nat, j: int)
    requires a <= |p|
    ensures PartOfName(p, a, j) <==> NameKept(p, a, j)
    decreases |p| - a
  {
    if IdentAt(p, a) && Is(p, a + 1, DOT) {
      PartIsKept(p, a + 2, j);
      DottedNext(p, a, j);
    } else if PartOfName(p, a, j) {
      DottedEnds(p, a, j);
    }
  }

  // ---- The reasons one by one ----

  lemma PairOf(u: Unicode, p: seq<Token>, pairs: Pairs, o: int, c: int)
    requires Paired(u, p, pairs)
    ensures Closes(p, o, c) <==> o in pairs.closeAt && pairs.closeAt[o] == c
  {
    assert PairedAt(p, pairs.closeAt, o);
    if Closes(p, o, c) {
      assert Depth(p, c + 1) == Depth(p, c) - 1;
      var d := pairs.closeAt[o];
      assert Depth(p, d + 1) == Depth(p, d) - 1;
    }
  }

  lemma InFrontExactly(u: Unicode, p: seq<Token>, pairs: Pairs, o: int, j: int)
    requires Paired(u, p, pairs)
    ensures InFrontOfClose(p, o, j) <==> o in pairs.closeAt && j < pairs.closeAt[o]
  {
    if InFrontOfClose(p, o, j) {
      var c :| Closes(p, o, c) && j < c;
      PairOf(u, p, pairs, o, c);
    } else if o in pairs.closeAt {
      PairOf(u, p, pairs, o, pairs.closeAt[o]);
    }
  }

  lemma CastExactly(u: Unicode, p: seq<Token>, pairs: Pairs, i: int, j: int)
    requires Paired(u, p, pairs)
    ensures CastKept(u, p, pairs.closeAt, i, j) <==> IsCastType(u, p, i, j)
  {
    var o := i + 1;
    InFrontExactly(u, p, pairs, o, j);
    if CastKept(u, p, pairs.closeAt, i, j) {
      var a :| o < a < j && AsAt(u, p, o, a);
      assert BehindAs(u, p, o, j);
    }
    if IsCastType(u, p, i, j) {
      var a :| o < a < j && a < |p| && WordAt(u, p, a) == AS && !Is(p, a, OPEN) && Depth(p, a) == Depth(p, o) + 1;
      assert AsAt(u, p, o, a);
    }
  }

  lemma TypeStopExactly(u: Unicode, p: seq<Token>, pairs: Pairs, i: nat, a: nat, e: int)
    requires Paired(u, p, pairs) && i < |p| && a == i + 1
    ensures TypeStopsAt(p, a, e) <==> e == TypeEnd(p, pairs.closeAt, i)
  {
    var s := NameStop(p, a);
    StopIsThere(p, a, s);
    ArgumentsExactly(u, p, pairs, s, e);
    if TypeStopsAt(p, a, e) {
      var r :| NameStopsAt(p, a, r) && ArgumentsEnd(p, r, e);
      StopIsThere(p, a, r);
    }
  }

  lemma ArgumentsExactly(u: Unicode, p: seq<Token>, pairs: Pairs, s: int, e: int)
    requires Paired(u, p, pairs)
    ensures ArgumentsEnd(p, s, e) <==> e == if s + 1 in pairs.closeAt then pairs.closeAt[s + 1] else s
  {
    PairOf(u, p, pairs, s + 1, e);
  }

  lemma TypeWordExactly(u: Unicode, p: seq<Token>, pairs: Pairs, i: nat, a: nat, j: int)
    requires Paired(u, p, pairs) && i < |p| && a == i + 1
    ensures TypeWordKept(u, p, pairs.closeAt, i, j) <==> DoubleColon(p, i) && IsTypeWord(u, p, a, j)
  {
    var e := TypeEnd(p, pairs.closeAt, i);
    TypeStopExactly(u, p, pairs, i, a, e);
    if IsTypeWord(u, p, a, j) {
      var d :| TypeStopsAt(p, a, d) && d < j < |p|
        && forall k :: d < k <= j ==> WordAt(u, p, k) in {PRECISION, VARYING, WITH, WITHOUT, TIME, ZONE};
      TypeStopExactly(u, p, pairs, i, a, d);
    }
  }

  lemma KeptExactlyFor(u: Unicode, p: seq<Token>, pairs: Pairs, i: nat, j: int)
    requires Paired(u, p, pairs) && i < |p|
    ensures Keeps(u, p, pairs.closeAt, i, j) <==> KeptFor(u, p, i, j)
  {
    InFrontExactly(u, p, pairs, i + 1, j);
    CastExactly(u, p, pairs, i, j);
    PartIsKept(p, i + 1, j);
    TypeWordExactly(u, p, pairs, i, i + 1, j);
  }

  // The preserved tokens are the fields of EXTRACT, the units of INTERVAL, the names of collations, and the
  // types of CAST and of a double colon, with all their words.
  lemma PreservedExactly(u: Unicode, p: seq<Token>, pairs: Pairs, preserve: set<int>, j: int)
    requires Paired(u, p, pairs) && Preserved(u, p, pairs.closeAt, |p|, preserve)
    ensures j in preserve <==> exists i :: 0 <= i < |p| && KeptFor(u, p, i, j)
  {
    forall i | 0 <= i < |p| ensures Keeps(u, p, pairs.closeAt, i, j) <==> KeptFor(u, p, i, j) {
      KeptExactlyFor(u, p, pairs, i, j);
    }
  }
}
