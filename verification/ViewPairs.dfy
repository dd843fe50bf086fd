// Significant tokens of a view: neighbours, paired parentheses and the FROM flag
// (the first half of normalizeOscarViewForSource in datamigrate/oscar_view.go).
module ViewPairs {
  import opened Wrappers
  import opened Encoding
  import opened StringLiterals
  import opened ViewLexer

  const COMMA: Byte := 44

  // ---- Neighbours; out of range reads as nothing ----

  predicate Is(p: seq<Token>, i: int, c: Byte) { 0 <= i < |p| && p[i].text == [c] }

  function WordAt(u: Unicode, p: seq<Token>, i: int): Word {
    if 0 <= i < |p| && p[i].kind == Identifier then u.word(p[i].name) else Other
  }

  predicate ReservedAt(u: Unicode, p: seq<Token>, i: int) {
    0 <= i < |p| && p[i].kind == Identifier && u.reserved(p[i].name)
  }

  predicate IdentAt(p: seq<Token>, i: int) {
    0 <= i < |p| && (p[i].kind == Identifier || p[i].kind == QuotedName)
  }

  predicate LiteralAt(p: seq<Token>, i: int) { 0 <= i < |p| && p[i].kind == StringLiteral }

  // ---- Parentheses ----

  function Step(p: seq<Token>, i: nat): int { if Is(p, i, OPEN) then 1 else if Is(p, i, CLOSE) then -1 else 0 }

  function Depth(p: seq<Token>, i: nat): int
    requires i <= |p|
  {
    if i == 0 then 0 else Depth(p, i - 1) + Step(p, i - 1)
  }

  ghost predicate Balanced(p: seq<Token>) {
    (forall i :: 0 <= i <= |p| ==> Depth(p, i) >= 0) && Depth(p, |p|) == 0
  }

  // The parenthesis at o is the innermost one still open before i.
  ghost predicate Innermost(p: seq<Token>, o: int, i: int) {
    && 0 <= o < i <= |p| && Is(p, o, OPEN) && Depth(p, i) == Depth(p, o) + 1
    && forall k :: o < k <= i ==> Depth(p, k) > Depth(p, o)
  }

  ghost predicate Closes(p: seq<Token>, o: int, c: int) { Innermost(p, o, c) && Is(p, c, CLOSE) }

  lemma InnermostUnique(p: seq<Token>, a: int, b: int, i: int)
    requires Innermost(p, a, i) && Innermost(p, b, i)
    ensures a == b
  {}

  ghost predicate InExpression(u: Unicode, p: seq<Token>, i: int) {
    && WordAt(u, p, i) == FROM
    && exists o :: Innermost(p, o, i) && (WordAt(u, p, o - 1) in {EXTRACT, SUBSTRING, TRIM, OVERLAY})
  }

  datatype Pairs = Pairs(closeAt: map<int, int>, expressionFrom: set<int>)

  ghost predicate PairedAt(p: seq<Token>, closeAt: map<int, int>, o: int) { o in closeAt ==> Closes(p, o, closeAt[o]) }

  ghost predicate Paired(u: Unicode, p: seq<Token>, pairs: Pairs) {
    && (forall o :: o in pairs.closeAt <==> Is(p, o, OPEN))
    && (forall o :: PairedAt(p, pairs.closeAt, o))
    && (forall i :: i in pairs.expressionFrom <==> InExpression(u, p, i))
  }

  // The open parentheses before i, outermost first.
  ghost predicate Opens(p: seq<Token>, stack: seq<int>, i: nat) {
    && i <= |p| && Depth(p, i) == |stack| && (forall k :: 0 <= k <= i ==> Depth(p, k) >= 0)
    && (forall k :: 0 <= k < |stack| ==> 0 <= stack[k] < i && Is(p, stack[k], OPEN) && Depth(p, stack[k]) == k)
    && (forall k, m :: 0 <= k < |stack| && stack[k] < m <= i ==> Depth(p, m) > k)
  }

  lemma OpensPush(p: seq<Token>, stack: seq<int>, i: nat)
    requires i < |p| && Opens(p, stack, i) && Is(p, i, OPEN)
    ensures Opens(p, stack + [i], i + 1)
  {}

  lemma OpensPop(p: seq<Token>, stack: seq<int>, i: nat)
    requires i < |p| && Opens(p, stack, i) && Is(p, i, CLOSE) && stack != []
    ensures Opens(p, stack[..|stack| - 1], i + 1) && Closes(p, stack[|stack| - 1], i)
  {}

  lemma OpensStay(p: seq<Token>, stack: seq<int>, i: nat)
    requires i < |p| && Opens(p, stack, i) && !Is(p, i, OPEN) && !Is(p, i, CLOSE)
    ensures Opens(p, stack, i + 1)
  {}

  lemma OpensTop(p: seq<Token>, stack: seq<int>, i: nat)
    requires Opens(p, stack, i)
    ensures stack != [] ==> Innermost(p, stack[|stack| - 1], i)
    ensures stack == [] ==> forall o :: !Innermost(p, o, i)
  {
    forall o | stack == [] ensures !Innermost(p, o, i) { assert Depth(p, i) == 0; }
  }

  ghost predicate ClosedBefore(p: seq<Token>, closeAt: map<int, int>, stack: seq<int>, i: int) {
    && (forall o :: o in closeAt <==> o < i && Is(p, o, OPEN) && o !in stack)
    && (forall o :: o in closeAt ==> Closes(p, o, closeAt[o]))
  }

  lemma ClosedPush(p: seq<Token>, closeAt: map<int, int>, stack: seq<int>, i: int)
    requires ClosedBefore(p, closeAt, stack, i)
    requires !Is(p, i, CLOSE)
    ensures ClosedBefore(p, closeAt, if Is(p, i, OPEN) then stack + [i] else stack, i + 1)
  {}

  lemma ClosedPop(p: seq<Token>, closeAt: map<int, int>, stack: seq<int>, i: nat)
    requires ClosedBefore(p, closeAt, stack, i) && Opens(p, stack, i) && stack != [] && Is(p, i, CLOSE)
    ensures ClosedBefore(p, closeAt[stack[|stack| - 1] := i], stack[..|stack| - 1], i + 1)
  {
    OpensPop(p, stack, i);
    TopOnce(p, stack, i);
    ClosesTop(p, closeAt, stack, i, stack[|stack| - 1], stack[..|stack| - 1]);
  }

  lemma ClosesTop(p: seq<Token>, closeAt: map<int, int>, stack: seq<int>, i: nat, top: int, rest: seq<int>)
    requires ClosedBefore(p, closeAt, stack, i) && Closes(p, top, i) && Is(p, i, CLOSE)
    requires top !in rest && forall o :: o in stack <==> o in rest || o == top
    ensures ClosedBefore(p, closeAt[top := i], rest, i + 1)
  {
    var grown := closeAt[top := i];
    forall o ensures o in grown <==> o < i + 1 && Is(p, o, OPEN) && o !in rest {
      assert o in closeAt <==> o < i && Is(p, o, OPEN) && o !in stack;
    }
    forall o | o in grown ensures Closes(p, o, grown[o]) {}
  }

  lemma TopOnce(p: seq<Token>, stack: seq<int>, i: nat)
    requires Opens(p, stack, i) && stack != []
    ensures forall o :: o in stack <==> o in stack[..|stack| - 1] || o == stack[|stack| - 1]
    ensures stack[|stack| - 1] !in stack[..|stack| - 1]
  {
    var n := |stack| - 1;
    assert stack == stack[..n] + [stack[n]];
    forall k | 0 <= k < n ensures stack[k] != stack[n] { assert Depth(p, stack[k]) == k; }
  }

  lemma ExpressionStep(u: Unicode, p: seq<Token>, stack: seq<int>, i: nat)
    requires Opens(p, stack, i)
    ensures InExpression(u, p, i) <==>
            WordAt(u, p, i) == FROM && stack != []
              && WordAt(u, p, stack[|stack| - 1] - 1) in {EXTRACT, SUBSTRING, TRIM, OVERLAY}
  {
    OpensTop(p, stack, i);
    if InExpression(u, p, i) {
      var o :| Innermost(p, o, i) && (WordAt(u, p, o - 1) in {EXTRACT, SUBSTRING, TRIM, OVERLAY});
      InnermostUnique(p, o, stack[|stack| - 1], i);
    }
  }

  ghost predicate Expressions(u: Unicode, p: seq<Token>, expressionFrom: set<int>, i: int) {
    forall k :: k in expressionFrom <==> k < i && InExpression(u, p, k)
  }

  lemma Underflow(p: seq<Token>, i: nat)
    requires i < |p| && Depth(p, i) == 0 && Is(p, i, CLOSE)
    ensures !Balanced(p)
  {
    assert Depth(p, i + 1) == -1;
  }

  lemma PairEnd(u: Unicode, p: seq<Token>, pairs: Pairs, stack: seq<int>)
    requires Opens(p, stack, |p|) && ClosedBefore(p, pairs.closeAt, stack, |p|)
             && Expressions(u, p, pairs.expressionFrom, |p|)
    ensures stack == [] <==> Balanced(p)
    ensures stack == [] ==> Paired(u, p, pairs)
  {}

  // The scan for pairs: what is known before position i, or nothing once a parenthesis closes unopened.
  datatype Nesting = Nesting(pairs: Pairs, stack: seq<int>)

  function NestingStep(u: Unicode, p: seq<Token>, s: Nesting, i: nat): Option<Nesting> {
    var top := if s.stack == [] then -1 else s.stack[|s.stack| - 1];
    var inside := WordAt(u, p, i) == FROM && s.stack != []
      && WordAt(u, p, top - 1) in {EXTRACT, SUBSTRING, TRIM, OVERLAY};
    var expressionFrom := if inside then s.pairs.expressionFrom + {i} else s.pairs.expressionFrom;
    if Is(p, i, OPEN) then Some(Nesting(Pairs(s.pairs.closeAt, expressionFrom), s.stack + [i]))
    else if !Is(p, i, CLOSE) then Some(Nesting(Pairs(s.pairs.closeAt, expressionFrom), s.stack))
    else if s.stack == [] then None
    else Some(Nesting(Pairs(s.pairs.closeAt[top := i], expressionFrom), s.stack[..|s.stack| - 1]))
  }

  function NestingAt(u: Unicode, p: seq<Token>, i: nat): Option<Nesting> {
    if i == 0 then Some(Nesting(Pairs(map[], {}), []))
    else
      var s := NestingAt(u, p, i - 1);
      if s.None? then None else NestingStep(u, p, s.value, i - 1)
  }

  lemma StepOpens(u: Unicode, p: seq<Token>, s: Nesting, i: nat)
    requires i < |p| && Opens(p, s.stack, i)
    ensures match NestingStep(u, p, s, i)
            case None => !Balanced(p)
            case Some(t) => Opens(p, t.stack, i + 1)
  {
    if Is(p, i, OPEN) {
      OpensPush(p, s.stack, i);
    } else if !Is(p, i, CLOSE) {
      OpensStay(p, s.stack, i);
    } else if s.stack == [] {
      Underflow(p, i);
    } else {
      OpensPop(p, s.stack, i);
    }
  }

  lemma {:induction false} ScanOpens(u: Unicode, p: seq<Token>, i: nat)
    requires i <= |p|
    ensures match NestingAt(u, p, i)
            case None => !Balanced(p)
            case Some(s) => Opens(p, s.stack, i)
  {
    if i > 0 {
      ScanOpens(u, p, i - 1);
      var s := NestingAt(u, p, i - 1);
      if s.Some? { StepOpens(u, p, s.value, i - 1); }
    }
  }

  lemma StepCloses(u: Unicode, p: seq<Token>, s: Nesting, i: nat)
    requires Opens(p, s.stack, i) && ClosedBefore(p, s.pairs.closeAt, s.stack, i)
    requires NestingStep(u, p, s, i).Some?
    ensures var t := NestingStep(u, p, s, i).value; ClosedBefore(p, t.pairs.closeAt, t.stack, i + 1)
  {
    if Is(p, i, CLOSE) {
      ClosedPop(p, s.pairs.closeAt, s.stack, i);
    } else {
      ClosedPush(p, s.pairs.closeAt, s.stack, i);
    }
  }

  lemma {:induction false} ScanCloses(u: Unicode, p: seq<Token>, i: nat)
    requires i <= |p| && NestingAt(u, p, i).Some?
    ensures var s := NestingAt(u, p, i).value; ClosedBefore(p, s.pairs.closeAt, s.stack, i)
  {
    if i > 0 {
      ScanCloses(u, p, i - 1);
      ScanOpens(u, p, i - 1);
      StepCloses(u, p, NestingAt(u, p, i - 1).value, i - 1);
    }
  }

  lemma StepExpressions(u: Unicode, p: seq<Token>, s: Nesting, i: nat)
    requires Opens(p, s.stack, i) && Expressions(u, p, s.pairs.expressionFrom, i)
    requires NestingStep(u, p, s, i).Some?
    ensures Expressions(u, p, NestingStep(u, p, s, i).value.pairs.expressionFrom, i + 1)
  {
    ExpressionStep(u, p, s.stack, i);
  }

  lemma {:induction false} ScanExpressions(u: Unicode, p: seq<Token>, i: nat)
    requires i <= |p| && NestingAt(u, p, i).Some?
    ensures Expressions(u, p, NestingAt(u, p, i).value.pairs.expressionFrom, i)
  {
    if i > 0 {
      ScanExpressions(u, p, i - 1);
      ScanOpens(u, p, i - 1);
      StepExpressions(u, p, NestingAt(u, p, i - 1).value, i - 1);
    }
  }

  // Fails exactly on unbalanced text; otherwise every parenthesis is paired with the one that closes it.
  method Pair(u: Unicode, p: seq<Token>) returns (r: Option<Pairs>)
    ensures r.None? <==> !Balanced(p)
    ensures r.Some? ==> Paired(u, p, r.value)
  {
    var closeAt: map<int, int>, expressionFrom: set<int>, stack: seq<int> := map[], {}, [];
    for i := 0 to |p|
      invariant NestingAt(u, p, i) == Some(Nesting(Pairs(closeAt, expressionFrom), stack))
    {
      if WordAt(u, p, i) == FROM && |stack| > 0 {
        if WordAt(u, p, stack[|stack| - 1] - 1) in {EXTRACT, SUBSTRING, TRIM, OVERLAY} {
          expressionFrom := expressionFrom + {i};
        }
      }
      if Is(p, i, OPEN) {
        stack := stack + [i];
      } else if Is(p, i, CLOSE) {
        if |stack| == 0 {
          ScanOpens(u, p, i + 1);
          return None;
        }
        closeAt := closeAt[stack[|stack| - 1] := i];
        stack := stack[..|stack| - 1];
      }
    }
    ScanOpens(u, p, |p|);
    ScanCloses(u, p, |p|);
    ScanExpressions(u, p, |p|);
    PairEnd(u, p, Pairs(closeAt, expressionFrom), stack);
    if |stack| != 0 { return None; }
    r := Some(Pairs(closeAt, expressionFrom));
  }

  // ---- The FROM flag ----

  // Whether commas separate FROM items, and the flags of the parentheses still open.
  datatype Flags = Flags(from: bool, outer: seq<bool>)

  function FlagAfter(w: Word, inExpression: bool, from: bool): bool {
    match w
    case SELECT | WHERE | GROUP | HAVING | ORDER | UNION | LIMIT | OFFSET => false
    case FROM | JOIN => !inExpression || from
    case _ => from
  }

  function FlagStep(u: Unicode, p: seq<Token>, expressionFrom: set<int>, i: nat, f: Flags): Flags {
    if Is(p, i, OPEN) then Flags(false, f.outer + [f.from])
    else if Is(p, i, CLOSE) then
      if f.outer == [] then f else Flags(f.outer[|f.outer| - 1], f.outer[..|f.outer| - 1])
    else f.(from := FlagAfter(WordAt(u, p, i), i in expressionFrom, f.from))
  }

  function FlagsAt(u: Unicode, p: seq<Token>, expressionFrom: set<int>, i: nat): Flags
    requires i <= |p|
  {
    if i == 0 then Flags(false, []) else FlagStep(u, p, expressionFrom, i - 1, FlagsAt(u, p, expressionFrom, i - 1))
  }

  // In balanced text the stack of flags is as deep as the nesting, so it never underflows.
  lemma {:induction false} FlagsFollowDepth(u: Unicode, p: seq<Token>, expressionFrom: set<int>, i: nat)
    requires Balanced(p) && i <= |p|
    ensures |FlagsAt(u, p, expressionFrom, i).outer| == Depth(p, i)
  {
    if i > 0 {
      FlagsFollowDepth(u, p, expressionFrom, i - 1);
      assert Depth(p, i) >= 0;
    }
  }

  lemma {:induction false} OuterKept(u: Unicode, p: seq<Token>, expressionFrom: set<int>, o: nat, i: nat)
    requires Balanced(p) && o < i <= |p| && Is(p, o, OPEN) && forall k :: o < k <= i ==> Depth(p, k) > Depth(p, o)
    ensures var outer := FlagsAt(u, p, expressionFrom, o).outer + [FlagsAt(u, p, expressionFrom, o).from];
            outer <= FlagsAt(u, p, expressionFrom, i).outer
  {
    FlagsFollowDepth(u, p, expressionFrom, o);
    FlagsFollowDepth(u, p, expressionFrom, i);
    if i > o + 1 {
      OuterKept(u, p, expressionFrom, o, i - 1);
      FlagsFollowDepth(u, p, expressionFrom, i - 1);
      assert Depth(p, i) > Depth(p, o);
    }
  }

  // After a parenthesis closes, the flag is what it was before it opened.
  lemma FlagRestored(u: Unicode, p: seq<Token>, expressionFrom: set<int>, o: int, c: int)
    requires Balanced(p) && Closes(p, o, c) && c < |p|
    ensures FlagsAt(u, p, expressionFrom, c + 1) == FlagsAt(u, p, expressionFrom, o)
  {
    OuterKept(u, p, expressionFrom, o, c);
    FlagsFollowDepth(u, p, expressionFrom, o);
    FlagsFollowDepth(u, p, expressionFrom, c);
  }
}
