// Two texts whose normalization reads as other tokens: a"b" and b"s".f() through the whole of
// normalizeOscarViewForSource (datamigrate/oscar_view.go).
module ViewAdjacent {
  import opened Wrappers
  import opened Encoding
  import opened StringLiterals
  import opened ViewLexer
  import opened ViewPairs
  import opened ViewKeep
  import opened ViewNames
  import opened ViewRewriting
  import opened ViewParts
  import opened ViewNormalize
  import opened ViewJoins
  import opened ViewExample

  function QuotedToken(name: Text): Token { Token(Quote(name), name, QuotedName) }

  lemma QuoteOne(b: Byte)
    requires b != DOUBLE
    ensures Quote([b]) == [DOUBLE, b, DOUBLE]
  {
    assert Doubled([b], DOUBLE) == [b] + Doubled([], DOUBLE);
  }

  lemma {:induction false} DoubledConcat(x: Text, y: Text, q: Byte)
    ensures Doubled(x + y, q) == Doubled(x, q) + Doubled(y, q)
  {
    if x == [] {
      assert x + y == y;
    } else {
      DoubledConcat(x[1..], y, q);
      assert (x + y)[1..] == x[1..] + y;
      Associative(if x[0] == q then [q, q] else [x[0]], Doubled(x[1..], q), Doubled(y, q));
    }
  }

  lemma Associative(a: Text, b: Text, c: Text)
    ensures a + (b + c) == (a + b) + c
  {}

  // Two quoted names side by side are the quoted form of one name.
  lemma QuotesJoin(x: Text, y: Text)
    ensures Quote(x) + Quote(y) == Quote(x + [DOUBLE] + y)
  {
    DoubledConcat(x + [DOUBLE], y, DOUBLE);
    DoubledConcat(x, [DOUBLE], DOUBLE);
    assert Doubled([DOUBLE], DOUBLE) == [DOUBLE, DOUBLE] + Doubled([], DOUBLE);
  }

  // ---- a"b" ----

  function Aliased(): Text { [A, DOUBLE, B, DOUBLE] }

  function AliasedTokens(): seq<Token> { [BareName([A]), QuotedToken([B])] }

  lemma AliasedLexes(u: Unicode)
    ensures Lexed(u, Aliased()) == Success(AliasedTokens())
  {
    var s := Aliased();
    QuoteOne(B);
    assert ShapeOf(u, s, 0, false) == Shape.Bare && !IdentPart(u, Decode(s, 1).value);
    assert s[0..1] == [A] && IdentEnd(u, s, 1) == 1;
    var first := [] + [BareName([A])];
    assert first == [BareName([A])];
    assert LexFrom(u, s, 0, []) == LexFrom(u, s, 1, first);
    QuotedNameDecodes(u, [A], [B], [], ArrayBracket(u, first));
    assert s == [A] + Quote([B]) + [] && s[1..4] == Quote([B]);
    assert LexFrom(u, s, 1, first) == LexFrom(u, s, 4, first + [QuotedToken([B])]);
    assert first + [QuotedToken([B])] == AliasedTokens();
  }

  lemma BothQuoted(c: Context, env: Env)
    requires Fine(AliasedTokens()) && !c.u.reserved([A]) && env.preserve == {}
    ensures var p := Run(c, AliasedTokens(), env, 2);
            p[0].text == Quote(c.u.upper([A])) && p[1].text == Quote(c.u.upper([B]))
  {
    var sig := AliasedTokens();
    QuoteOne(B);
    assert ChainEnd(sig, 0) == 0 && ChainEnd(sig, 1) == 1 && Head(sig, 0) == 0 && Head(sig, 1) == 1;
    assert First(c, sig, env, 0) == Names(-2) && First(c, sig, env, 1) == Names(-1);
    FirstPartExact(c, sig, env, 0, 2);
    FirstPartExact(c, sig, env, 1, 2);
  }

  lemma AliasedBalanced()
    ensures Balanced(AliasedTokens())
  {
    var p := AliasedTokens();
    QuoteOne(B);
    assert Depth(p, 0) == 0;
    assert Depth(p, 1) == 0;
    assert Depth(p, 2) == 0;
  }

  lemma AliasedPlain(u: Unicode)
    requires u.word([A]) == Other
    ensures Wordless(u, AliasedTokens())
  {
    QuoteOne(B);
  }

  lemma ConcatTwo(p: seq<Token>)
    requires |p| == 2
    ensures Concat(p) == p[0].text + p[1].text
  {
    assert p == [p[0]] + [p[1]];
    ConcatOne(p[0]);
    ConcatSnoc([p[0]], p[1]);
  }

  lemma AliasedWritten(c: Context, env: Env, out: Text)
    requires c.u.word([A]) == Other && !c.u.reserved([A]) && Significant(AliasedTokens()) == AliasedTokens()
    requires Normalizes(c, AliasedTokens(), env, out)
    ensures out == Quote(c.u.upper([A])) + Quote(c.u.upper([B]))
  {
    AliasedPlain(c.u);
    NothingKept(c.u, AliasedTokens(), env.pairs.closeAt, env.preserve);
    BothQuoted(c, env);
    WovenAll(AliasedTokens(), Run(c, AliasedTokens(), env, 2));
    ConcatTwo(Run(c, AliasedTokens(), env, 2));
  }

  // A name and a quoted name directly behind it, as in a column with an alias, become one name.
  lemma AdjacentNamesJoin(c: Context, env: Env, out: Text)
    requires c.u.word([A]) == Other && !c.u.reserved([A])
    ensures Lexed(c.u, Aliased()) == Success(AliasedTokens()) && Balanced(Significant(AliasedTokens()))
    ensures Normalizes(c, AliasedTokens(), env, out) ==>
              var joined := c.u.upper([A]) + [DOUBLE] + c.u.upper([B]);
              out == Quote(joined) && Lexed(c.u, out) == Success([QuotedToken(joined)])
  {
    AliasedLexes(c.u);
    AllSignificant(AliasedTokens());
    AliasedBalanced();
    if Normalizes(c, AliasedTokens(), env, out) { AliasedWritten(c, env, out); }
    QuotesJoin(c.u.upper([A]), c.u.upper([B]));
    QuotedNameLexes(c.u, c.u.upper([A]) + [DOUBLE] + c.u.upper([B]));
  }

  // ---- b"s".f() ----

  const S: Byte := 115

  function Called(): Text { [B, DOUBLE, S, DOUBLE, DOT, F, OPEN, CLOSE] }

  function CalledTokens(): seq<Token> {
    [BareName([B]), QuotedToken([S]), Mark(DOT), BareName([F]), Mark(OPEN), Mark(CLOSE)]
  }

  function Fused(): Text { [B, F, OPEN, CLOSE] }

  function FusedTokens(): seq<Token> { [BareName([B, F]), Mark(OPEN), Mark(CLOSE)] }

  // One or two letters in front of a quoted name or a parenthesis.
  lemma LettersScan(u: Unicode, s: Text, i: nat, b: bool, n: nat)
    requires 1 <= n <= 2 && i + n < |s| && (s[i + n] == DOUBLE || s[i + n] == OPEN)
    requires AsciiLetter(s[i]) && (n == 2 ==> AsciiLetter(s[i + 1]))
    ensures Scan(u, s, i, b) == Success(Lexeme(Identifier, i + n, s[i..i + n]))
  {
    assert ShapeOf(u, s, i, b) == Shape.Bare;
    assert !IdentPart(u, Decode(s, i + n).value);
    assert IdentEnd(u, s, i + n) == i + n;
    if n == 2 { assert IdentEnd(u, s, i + 1) == IdentEnd(u, s, i + 2); }
  }

  lemma MarkScans(u: Unicode, s: Text, i: nat, b: bool)
    requires i < |s| && (s[i] == DOT || s[i] == OPEN || s[i] == CLOSE)
    ensures Scan(u, s, i, b) == Success(Lexeme(Punctuation, i + 1, []))
  {
    assert ShapeOf(u, s, i, b) == Shape.Symbol;
  }

  lemma NextToken(u: Unicode, s: Text, i: nat, before: seq<Token>, t: Token, after: seq<Token>)
    requires t.text != [] && i + |t.text| <= |s| && s[i..i + |t.text|] == t.text && after == before + [t]
    requires Scan(u, s, i, ArrayBracket(u, before)) == Success(Lexeme(t.kind, i + |t.text|, t.name))
    ensures LexFrom(u, s, i, before) == LexFrom(u, s, i + |t.text|, after)
  {}

  lemma FirstCalled(u: Unicode)
    ensures LexFrom(u, Called(), 0, []) == LexFrom(u, Called(), 4, CalledTokens()[..2])
  {
    var s, ts := Called(), CalledTokens();
    QuoteOne(S);
    LettersScan(u, s, 0, false, 1);
    NextToken(u, s, 0, [], ts[0], ts[..1]);
    assert s == [B] + Quote([S]) + [DOT, F, OPEN, CLOSE];
    QuotedNameDecodes(u, [B], [S], [DOT, F, OPEN, CLOSE], ArrayBracket(u, ts[..1]));
    NextToken(u, s, 1, ts[..1], ts[1], ts[..2]);
  }

  lemma MiddleCalled(u: Unicode)
    ensures LexFrom(u, Called(), 4, CalledTokens()[..2]) == LexFrom(u, Called(), 6, CalledTokens()[..4])
  {
    var s, ts := Called(), CalledTokens();
    MarkScans(u, s, 4, ArrayBracket(u, ts[..2]));
    NextToken(u, s, 4, ts[..2], ts[2], ts[..3]);
    LettersScan(u, s, 5, ArrayBracket(u, ts[..3]), 1);
    NextToken(u, s, 5, ts[..3], ts[3], ts[..4]);
  }

  lemma LastCalled(u: Unicode)
    ensures LexFrom(u, Called(), 6, CalledTokens()[..4]) == Success(CalledTokens())
  {
    var s, ts := Called(), CalledTokens();
    MarkScans(u, s, 6, ArrayBracket(u, ts[..4]));
    NextToken(u, s, 6, ts[..4], ts[4], ts[..5]);
    MarkScans(u, s, 7, ArrayBracket(u, ts[..5]));
    NextToken(u, s, 7, ts[..5], ts[5], ts);
  }

  lemma FusedLexes(u: Unicode)
    ensures Lexed(u, Fused()) == Success(FusedTokens())
  {
    var s, ts := Fused(), FusedTokens();
    LettersScan(u, s, 0, false, 2);
    NextToken(u, s, 0, [], ts[0], ts[..1]);
    MarkScans(u, s, 2, ArrayBracket(u, ts[..1]));
    NextToken(u, s, 2, ts[..1], ts[1], ts[..2]);
    MarkScans(u, s, 3, ArrayBracket(u, ts[..2]));
    NextToken(u, s, 3, ts[..2], ts[2], ts);
  }

  ghost predicate Fits(c: Context) {
    c.u.word([B]) == Other && c.u.word([F]) == Other && c.u.reserved([B]) && Stripped(c, [S])
  }

  lemma CalledPairs(c: Context, env: Env)
    requires Fits(c) && Paired(c.u, CalledTokens(), env.pairs)
    requires Preserved(c.u, CalledTokens(), env.pairs.closeAt, 6, env.preserve)
    ensures env == Env(Pairs(map[4 := 5], {}), {})
  {
    var p := CalledTokens();
    QuoteOne(S);
    forall o ensures Is(p, o, OPEN) <==> o == 4 {}
    forall o ensures Is(p, o, CLOSE) <==> o == 5 {}
    assert Is(p, 4, OPEN) && PairedAt(p, env.pairs.closeAt, 4);
    assert Is(p, env.pairs.closeAt[4], CLOSE);
    forall o ensures o in env.pairs.closeAt <==> o == 4 { assert o in env.pairs.closeAt <==> Is(p, o, OPEN); }
    assert env.pairs.closeAt == map[4 := 5];
    forall i ensures i !in env.pairs.expressionFrom { assert WordAt(c.u, p, i) == Other; }
    NothingKept(c.u, p, env.pairs.closeAt, env.preserve);
  }

  lemma CalledBalanced()
    ensures Balanced(CalledTokens())
  {
    var p := CalledTokens();
    QuoteOne(S);
    assert Depth(p, 0) == 0;
    assert Depth(p, 1) == 0;
    assert Depth(p, 2) == 0;
    assert Depth(p, 3) == 0;
    assert Depth(p, 4) == 0;
    assert Depth(p, 5) == 1;
    assert Depth(p, 6) == 0;
  }

  lemma CalledFirst(c: Context, env: Env)
    requires Fits(c) && env == Env(Pairs(map[4 := 5], {}), {})
    ensures var sig := CalledTokens();
            && First(c, sig, env, 0).Skip? && First(c, sig, env, 1).Call? && ChainEnd(sig, 1) == 3
            && Head(sig, 0) == 0 && Head(sig, 1) == 1 && Head(sig, 2) == 1
  {
    var sig := CalledTokens();
    QuoteOne(S);
    assert ChainEnd(sig, 3) == 3;
    assert ChainEnd(sig, 1) == ChainEnd(sig, 3) && ChainEnd(sig, 0) == 0;
    assert FlagsAt(c.u, sig, {}, 0) == Flags(false, []);
    assert FlagsAt(c.u, sig, {}, 1) == Flags(false, []);
    assert FlagsAt(c.u, sig, {}, 2) == Flags(false, []);
    assert Head(sig, 1) == 1 && Head(sig, 2) == Head(sig, 1);
  }

  lemma CalledRun(c: Context, env: Env)
    requires Fits(c) && env == Env(Pairs(map[4 := 5], {}), {}) && Fine(CalledTokens())
    ensures var p := Run(c, CalledTokens(), env, 6);
            p[0].text == [B] && p[1].text == p[2].text == [] && p[3].text == [F] && p[4].text == [OPEN]
            && p[5].text == [CLOSE]
  {
    var sig := CalledTokens();
    CalledFirst(c, env);
    FirstPartExact(c, sig, env, 0, 6);
    FirstPartExact(c, sig, env, 1, 6);
    FirstVisit(c, sig, env, 1, 2);
    DotVisit(c, sig, env, 2);
    EarlierKept(c, sig, env, 2, 3, 6);
    FunctionKept(c, sig, env, 1, 6);
    LiteralsAndPunctuation(c, sig, env, 6, 4);
    LiteralsAndPunctuation(c, sig, env, 6, 5);
  }

  lemma FusedWritten(p: seq<Token>)
    requires |p| == 6 && p[0].text == [B] && p[1].text == p[2].text == [] && p[3].text == [F]
    requires p[4].text == [OPEN] && p[5].text == [CLOSE]
    ensures Concat(p) == Fused()
  {
    assert p == [p[0], p[1], p[2]] + [p[3], p[4], p[5]];
    ConcatJoin([p[0], p[1], p[2]], [p[3], p[4], p[5]]);
    ConcatThree(p[0], p[1], p[2]);
    ConcatThree(p[3], p[4], p[5]);
  }

  lemma CalledWritten(c: Context, env: Env, out: Text)
    requires Fits(c) && Significant(CalledTokens()) == CalledTokens() && Normalizes(c, CalledTokens(), env, out)
    ensures out == Fused()
  {
    CalledPairs(c, env);
    CalledRun(c, env);
    WovenAll(CalledTokens(), Run(c, CalledTokens(), env, 6));
    FusedWritten(Run(c, CalledTokens(), env, 6));
  }

  // A reserved word directly in front of a stripped schema becomes one word with the function behind it.
  lemma WordsFuse(c: Context, env: Env, out: Text)
    requires Fits(c)
    ensures Lexed(c.u, Called()) == Success(CalledTokens()) && Balanced(Significant(CalledTokens()))
    ensures Normalizes(c, CalledTokens(), env, out) ==>
              out == Fused() && Lexed(c.u, out) == Success(FusedTokens())
  {
    FirstCalled(c.u);
    MiddleCalled(c.u);
    LastCalled(c.u);
    AllSignificant(CalledTokens());
    CalledBalanced();
    FusedLexes(c.u);
    if Normalizes(c, CalledTokens(), env, out) { CalledWritten(c, env, out); }
  }
}
