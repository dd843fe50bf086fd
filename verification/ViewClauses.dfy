// Which commas separate the items of a FROM list (datamigrate/oscar_view.go): the flag that the rewriting
// carries along says exactly that the text stands in a FROM clause.
module ViewClauses {
  import opened Wrappers
  import opened ViewLexer
  import opened ViewPairs
  import opened ViewNames

  // Position k belongs to the same parentheses as the text in front of i.
  ghost predicate SameLevel(p: seq<Token>, k: int, i: int) {
    && 0 <= k < i <= |p| && Depth(p, k) == Depth(p, i) && !Is(p, k, OPEN) && !Is(p, k, CLOSE)
    && forall m :: k <= m <= i ==> Depth(p, m) >= Depth(p, i)
  }

  // A word that opens a FROM list, unless it is the FROM of EXTRACT and its like.
  ghost predicate OpensFrom(u: Unicode, p: seq<Token>, k: int) {
    WordAt(u, p, k) == JOIN || WordAt(u, p, k) == FROM
  }

  ghost predicate EndsFrom(u: Unicode, p: seq<Token>, k: int) {
    WordAt(u, p, k) in {SELECT, WHERE, GROUP, HAVING, ORDER, UNION, LIMIT, OFFSET}
  }

  // In front of i, and inside the same parentheses, a FROM list was opened and no other clause was begun since.
  ghost predicate InFromList(u: Unicode, p: seq<Token>, expressionFrom: set<int>, i: int) {
    exists k :: SameLevel(p, k, i) && OpensFrom(u, p, k) && k !in expressionFrom
                && forall m :: k < m && SameLevel(p, m, i) ==> !EndsFrom(u, p, m)
  }

  lemma NothingBehindOpen(u: Unicode, p: seq<Token>, expressionFrom: set<int>, i: nat)
    requires i < |p| && Is(p, i, OPEN)
    ensures !InFromList(u, p, expressionFrom, i + 1)
  {
    assert Depth(p, i + 1) == Depth(p, i) + 1;
  }

  lemma ClosesExist(u: Unicode, p: seq<Token>, c: nat) returns (o: int)
    requires Balanced(p) && c < |p| && Is(p, c, CLOSE)
    ensures Closes(p, o, c)
  {
    ScanOpens(u, p, c);
    var stack := NestingAt(u, p, c).value.stack;
    assert Depth(p, c + 1) >= 0;
    OpensPop(p, stack, c);
    o := stack[|stack| - 1];
  }

  lemma SameLevelOutside(p: seq<Token>, o: int, c: int, k: int)
    requires Closes(p, o, c) && c < |p|
    ensures SameLevel(p, k, c + 1) <==> SameLevel(p, k, o)
  {
    assert Depth(p, c + 1) == Depth(p, o);
    if o < k <= c { assert Depth(p, k) > Depth(p, o); }
    if SameLevel(p, k, o) {
      forall m | k <= m <= c + 1 ensures Depth(p, m) >= Depth(p, c + 1) {
        if m > o && m <= c { assert Depth(p, m) > Depth(p, o); }
      }
    }
    if SameLevel(p, k, c + 1) && k < o {
      forall m | k <= m <= o ensures Depth(p, m) >= Depth(p, o) {}
    }
  }

  lemma SameLevelNext(p: seq<Token>, i: nat, k: int)
    requires i < |p| && !Is(p, i, OPEN) && !Is(p, i, CLOSE)
    ensures SameLevel(p, k, i + 1) <==> k == i || SameLevel(p, k, i)
  {
    assert Depth(p, i + 1) == Depth(p, i);
    if SameLevel(p, k, i + 1) && k != i {
      forall m | k <= m <= i ensures Depth(p, m) >= Depth(p, i) {}
    }
  }

  lemma NextWord(u: Unicode, p: seq<Token>, expressionFrom: set<int>, i: nat)
    requires i < |p| && !Is(p, i, OPEN) && !Is(p, i, CLOSE)
    ensures InFromList(u, p, expressionFrom, i + 1) <==>
              || (OpensFrom(u, p, i) && i !in expressionFrom)
              || (!EndsFrom(u, p, i) && InFromList(u, p, expressionFrom, i))
  {
    forall k ensures SameLevel(p, k, i + 1) <==> k == i || SameLevel(p, k, i) { SameLevelNext(p, i, k); }
    if InFromList(u, p, expressionFrom, i + 1) {
      var k :| SameLevel(p, k, i + 1) && OpensFrom(u, p, k) && k !in expressionFrom
        && forall m :: k < m && SameLevel(p, m, i + 1) ==> !EndsFrom(u, p, m);
      if k != i { assert SameLevel(p, k, i) && SameLevel(p, i, i + 1); }
    }
    if OpensFrom(u, p, i) && i !in expressionFrom {
      assert SameLevel(p, i, i + 1);
    } else if !EndsFrom(u, p, i) && InFromList(u, p, expressionFrom, i) {
      var k :| SameLevel(p, k, i) && OpensFrom(u, p, k) && k !in expressionFrom
        && forall m :: k < m && SameLevel(p, m, i) ==> !EndsFrom(u, p, m);
      assert SameLevel(p, k, i + 1);
    }
  }

  lemma SameFromOutside(u: Unicode, p: seq<Token>, expressionFrom: set<int>, o: int, c: int)
    requires Closes(p, o, c) && c < |p|
    ensures InFromList(u, p, expressionFrom, c + 1) <==> InFromList(u, p, expressionFrom, o)
  {
    forall k ensures SameLevel(p, k, c + 1) <==> SameLevel(p, k, o) { SameLevelOutside(p, o, c, k); }
  }

  // In balanced text the flag is set exactly inside a FROM list.
  lemma {:induction false} FlagIsFromList(u: Unicode, p: seq<Token>, expressionFrom: set<int>, i: nat)
    requires Balanced(p) && i <= |p|
    ensures FlagsAt(u, p, expressionFrom, i).from <==> InFromList(u, p, expressionFrom, i)
    decreases i
  {
    if i > 0 {
      var before := i - 1;
      if Is(p, before, OPEN) {
        NothingBehindOpen(u, p, expressionFrom, before);
      } else if Is(p, before, CLOSE) {
        var o := ClosesExist(u, p, before);
        FlagRestored(u, p, expressionFrom, o, before);
        SameFromOutside(u, p, expressionFrom, o, before);
        FlagIsFromList(u, p, expressionFrom, o);
      } else {
        NextWord(u, p, expressionFrom, before);
        FlagIsFromList(u, p, expressionFrom, before);
      }
    }
  }
}
