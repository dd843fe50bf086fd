// The text a.b.f() through the whole of normalizeOscarViewForSource (datamigrate/oscar_view.go).
module ViewExample {
  import opened Wrappers
  import opened Encoding
  import opened StringLiterals
  import opened ViewLexer
  import opened ViewPairs
  import opened ViewKeep
  import opened ViewNames
  import opened ViewRewriting
  import opened ViewParts
  import opened ViewNormalize
  import opened ViewJoins

  function BareName(name: Text): Token { Token(name, name, Identifier) }
  function Mark(b: Byte): Token { Token([b], [], Punctuation) }

  // With a and b both to be stripped, the second visit of b writes it back without its dot.
  lemma SecondReturns(c: Context, sig: seq<Token>, env: Env, a: Text, b: Text, f: Text)
    requires sig == [BareName(a), Mark(DOT), BareName(b), Mark(DOT), BareName(f), Mark(OPEN), Mark(CLOSE)]
    requires Fine(sig) && Stripped(c, a) && Stripped(c, b)
    requires c.u.word(a) == Other && !c.u.reserved(b)
    requires env.preserve == {} && env.pairs == Pairs(map[5 := 6], {})
    ensures var p := Run(c, sig, env, |sig|);
            p[0].text == [] && p[1].text == [] && p[2].text == Quote(c.u.upper(b)) && p[3].text == []
  {
    FirstIsCall(c, sig, env, a, b, f);
    FirstNames(sig, a, b, f);
    FirstVisit(c, sig, env, 0, 0);
    FirstVisit(c, sig, env, 0, 1);
    FirstVisit(c, sig, env, 0, 2);
    FirstVisit(c, sig, env, 0, 3);
    DotVisit(c, sig, env, 1);
    SecondVisit(c, sig, env, b);
    DotVisit(c, sig, env, 3);
    EarlierKept(c, sig, env, 0, 1, 7);
    EarlierKept(c, sig, env, 1, 2, 7);
    EarlierKept(c, sig, env, 2, 3, 7);
    EarlierKept(c, sig, env, 3, 4, 7);
  }

  lemma FirstNames(sig: seq<Token>, a: Text, b: Text, f: Text)
    requires sig == [BareName(a), Mark(DOT), BareName(b), Mark(DOT), BareName(f), Mark(OPEN), Mark(CLOSE)]
    ensures forall k :: 0 <= k < 4 ==> Head(sig, k) == 0
  {
    assert Head(sig, 0) == 0;
    assert Head(sig, 1) == Head(sig, 0);
    assert Head(sig, 2) == Head(sig, 0);
    assert Head(sig, 3) == Head(sig, 2);
  }

  lemma FirstIsCall(c: Context, sig: seq<Token>, env: Env, a: Text, b: Text, f: Text)
    requires sig == [BareName(a), Mark(DOT), BareName(b), Mark(DOT), BareName(f), Mark(OPEN), Mark(CLOSE)]
    requires Fine(sig) && c.u.word(a) == Other && env.preserve == {} && env.pairs == Pairs(map[5 := 6], {})
    ensures First(c, sig, env, 0) == Call && ChainEnd(sig, 0) == 4
  {
    assert ChainEnd(sig, 4) == 4;
    assert ChainEnd(sig, 2) == ChainEnd(sig, 4);
    assert ChainEnd(sig, 0) == ChainEnd(sig, 2);
    assert FineAt(sig, 0);
    assert FlagsAt(c.u, sig, {}, 0) == Flags(false, []);
    assert FlagsAt(c.u, sig, {}, 1) == Flags(false, []);
  }

  lemma DotVisit(c: Context, sig: seq<Token>, env: Env, i: nat)
    requires Fine(sig) && i < |sig| && !IdentAt(sig, i)
    ensures Run(c, sig, env, i + 1) == Run(c, sig, env, i)
  {
    RunTracks(c, sig, env, i);
    RunStep(c, sig, env, i);
    assert Outcome(c, sig, Run(c, sig, env, i), i);
  }

  lemma SecondVisit(c: Context, sig: seq<Token>, env: Env, b: Text)
    requires Fine(sig) && |sig| == 7 && sig[2] == BareName(b) && !c.u.reserved(b) && env.preserve == {}
             && env.pairs.expressionFrom == {}
    requires sig[3] == Mark(DOT) && Run(c, sig, env, 2)[1].text == [] && Run(c, sig, env, 2)[3].text == []
    ensures Run(c, sig, env, 3)[2].text == Quote(c.u.upper(b)) && Run(c, sig, env, 3)[3].text == []
  {
    var p, from := Run(c, sig, env, 2), FromAt(c, sig, env, 2);
    RunTracks(c, sig, env, 2);
    RunStep(c, sig, env, 2);
    assert Outcome(c, sig, p, 2) && Outcome(c, sig, p, 3);
    assert ChainEnd(p, 2) == 2;
    assert TreatmentAt(c, p, env, from, 2) == Names(0);
    Visited(c, p, env, from, 2, 2);
    Visited(c, p, env, from, 2, 3);
  }

  // ---- From the text to its tokens ----

  const A: Byte := 97
  const B: Byte := 98
  const F: Byte := 102

  function Sql(): Text { [A, DOT, B, DOT, F, OPEN, CLOSE] }

  function Tokens(): seq<Token> {
    [BareName([A]), Mark(DOT), BareName([B]), Mark(DOT), BareName([F]), Mark(OPEN), Mark(CLOSE)]
  }

  lemma ScansOne(u: Unicode, i: nat, arrayBracket: bool)
    requires i < 7
    ensures Scan(u, Sql(), i, arrayBracket)
            == Success(if AsciiLetter(Sql()[i]) then Lexeme(Identifier, i + 1, [Sql()[i]])
              else Lexeme(Punctuation, i + 1, []))
  {
    var s := Sql();
    if AsciiLetter(s[i]) {
      assert ShapeOf(u, s, i, arrayBracket) == Shape.Bare;
      assert !IdentPart(u, Decode(s, i + 1).value);
      assert s[i..i + 1] == [s[i]];
    }
  }

  lemma LexesOne(u: Unicode, i: nat)
    requires i < 7
    ensures LexFrom(u, Sql(), i, Tokens()[..i]) == LexFrom(u, Sql(), i + 1, Tokens()[..i + 1])
  {
    ScansOne(u, i, ArrayBracket(u, Tokens()[..i]));
    assert Sql()[i..i + 1] == [Sql()[i]];
    assert Tokens()[..i + 1] == Tokens()[..i] + [Tokens()[i]];
  }

  lemma Lexes(u: Unicode)
    ensures Lexed(u, Sql()) == Success(Tokens())
  {
    assert Tokens()[..0] == [] && Tokens()[..7] == Tokens();
    LexesOne(u, 0);
    LexesOne(u, 1);
    LexesOne(u, 2);
    LexesOne(u, 3);
    LexesOne(u, 4);
    LexesOne(u, 5);
    LexesOne(u, 6);
  }

  lemma {:induction false} AllSignificant(tokens: seq<Token>)
    requires forall t :: t in tokens ==> t.kind != Trivia
    ensures Significant(tokens) == tokens
  {
    if tokens != [] {
      AllSignificant(tokens[..|tokens| - 1]);
      assert tokens == tokens[..|tokens| - 1] + [tokens[|tokens| - 1]];
    }
  }

  // ---- Its pairs and preserved tokens ----

  ghost predicate NoWords(u: Unicode) { u.word([A]) == Other && u.word([B]) == Other && u.word([F]) == Other }

  lemma OnlyPair(u: Unicode, pairs: Pairs)
    requires Paired(u, Tokens(), pairs) && NoWords(u)
    ensures pairs == Pairs(map[5 := 6], {})
  {
    var p := Tokens();
    forall o ensures Is(p, o, OPEN) <==> o == 5 {}
    forall o ensures Is(p, o, CLOSE) <==> o == 6 {}
    assert Is(p, 5, OPEN) && PairedAt(p, pairs.closeAt, 5);
    assert Is(p, pairs.closeAt[5], CLOSE);
    forall o ensures o in pairs.closeAt <==> o == 5 { assert o in pairs.closeAt <==> Is(p, o, OPEN); }
    assert pairs.closeAt == map[5 := 6];
    forall i ensures i !in pairs.expressionFrom { assert WordAt(u, p, i) == Other; }
  }

  // No word and no double colon asks for a spelling to be kept.
  ghost predicate Wordless(u: Unicode, p: seq<Token>) {
    forall i :: WordAt(u, p, i) == Other && !DoubleColon(p, i)
  }

  lemma NothingKept(u: Unicode, p: seq<Token>, closeAt: map<int, int>, preserve: set<int>)
    requires Preserved(u, p, closeAt, |p|, preserve) && Wordless(u, p)
    ensures preserve == {}
  {
    forall j ensures j !in preserve {
      forall i | 0 <= i < |p| ensures !Keeps(u, p, closeAt, i, j) {
        assert WordAt(u, p, i) == Other && !DoubleColon(p, i);
      }
    }
  }

  lemma IsBalanced()
    ensures Balanced(Tokens())
  {
    var p := Tokens();
    assert Depth(p, 0) == 0;
    assert Depth(p, 1) == 0;
    assert Depth(p, 2) == 0;
    assert Depth(p, 3) == 0;
    assert Depth(p, 4) == 0;
    assert Depth(p, 5) == 0;
    assert Depth(p, 6) == 1;
    assert Depth(p, 7) == 0;
  }

  // ---- What is written ----

  lemma {:induction false} WovenAll(tokens: seq<Token>, parts: seq<Token>)
    requires |parts| == |tokens| && forall t :: t in tokens ==> t.kind != Trivia
    ensures |parts| == |Significant(tokens)| && Woven(tokens, parts) == Concat(parts)
  {
    AllSignificant(tokens);
    if tokens != [] {
      var n := |tokens| - 1;
      AllSignificant(tokens[..n]);
      WovenAll(tokens[..n], parts[..n]);
    }
  }

  lemma ConcatOne(t: Token)
    ensures Concat([t]) == t.text
  {
    assert [] + [t] == [t];
    ConcatSnoc([], t);
  }

  lemma ConcatThree(a: Token, b: Token, c: Token)
    ensures Concat([a, b, c]) == a.text + b.text + c.text
  {
    ConcatOne(a);
    assert [a, b, c] == [a] + [b] + [c];
    ConcatSnoc([a], b);
    ConcatSnoc([a] + [b], c);
  }

  lemma Written(p: seq<Token>, upper: Text)
    requires |p| == 7 && p[0].text == [] && p[1].text == [] && p[2].text == upper && p[3].text == []
    requires p[4].text == [F] && p[5].text == [OPEN] && p[6].text == [CLOSE]
    ensures Concat(p) == upper + [F, OPEN, CLOSE]
  {
    assert p == [p[0], p[1], p[2]] + ([p[3]] + [p[4], p[5], p[6]]);
    ConcatJoin([p[0], p[1], p[2]], [p[3]] + [p[4], p[5], p[6]]);
    ConcatJoin([p[3]], [p[4], p[5], p[6]]);
    ConcatThree(p[0], p[1], p[2]);
    ConcatThree(p[4], p[5], p[6]);
    ConcatOne(p[3]);
    assert [] + [] + upper == upper && [] + ([F] + [OPEN] + [CLOSE]) == [F, OPEN, CLOSE];
  }

  lemma FunctionStays(c: Context, env: Env)
    requires Fine(Tokens()) && NoWords(c.u) && env.preserve == {} && env.pairs == Pairs(map[5 := 6], {})
    ensures var p := Run(c, Tokens(), env, 7); p[4].text == [F] && p[5].text == [OPEN] && p[6].text == [CLOSE]
  {
    FirstIsCall(c, Tokens(), env, [A], [B], [F]);
    assert Head(Tokens(), 0) == 0;
    FunctionKept(c, Tokens(), env, 0, 7);
    LiteralsAndPunctuation(c, Tokens(), env, 7, 5);
    LiteralsAndPunctuation(c, Tokens(), env, 7, 6);
  }

  // ---- Where a dot goes without its schema ----

  // With a and b both to be stripped, every successful normalization of a.b.f() begins with the upper-cased
  // and quoted b, directly in front of what has become of f().
  lemma SecondSchemaReturns(c: Context, env: Env, out: Text)
    requires Stripped(c, [A]) && Stripped(c, [B]) && NoWords(c.u) && !c.u.reserved([B])
    ensures Lexed(c.u, Sql()) == Success(Tokens()) && Balanced(Significant(Tokens()))
    ensures Normalizes(c, Tokens(), env, out) ==> out == Quote(c.u.upper([B])) + [F, OPEN, CLOSE]
  {
    SqlRead(c.u);
    if Normalizes(c, Tokens(), env, out) { SecondWritten(c, env, out); }
  }

  lemma SqlRead(u: Unicode)
    ensures Lexed(u, Sql()) == Success(Tokens()) && Balanced(Significant(Tokens()))
    ensures Significant(Tokens()) == Tokens()
  {
    Lexes(u);
    AllSignificant(Tokens());
    IsBalanced();
  }

  lemma SecondWritten(c: Context, env: Env, out: Text)
    requires Stripped(c, [A]) && Stripped(c, [B]) && NoWords(c.u) && !c.u.reserved([B])
    requires Significant(Tokens()) == Tokens() && Normalizes(c, Tokens(), env, out)
    ensures out == Quote(c.u.upper([B])) + [F, OPEN, CLOSE]
  {
    OnlyPair(c.u, env.pairs);
    NothingKept(c.u, Tokens(), env.pairs.closeAt, env.preserve);
    AllWritten(c, env);
  }

  lemma AllWritten(c: Context, env: Env)
    requires Stripped(c, [A]) && Stripped(c, [B]) && NoWords(c.u) && !c.u.reserved([B])
    requires Fine(Tokens()) && env.preserve == {} && env.pairs == Pairs(map[5 := 6], {})
    requires Significant(Tokens()) == Tokens()
    ensures Woven(Tokens(), Run(c, Tokens(), env, 7)) == Quote(c.u.upper([B])) + [F, OPEN, CLOSE]
  {
    var p := Run(c, Tokens(), env, 7);
    SecondReturns(c, Tokens(), env, [A], [B], [F]);
    FunctionStays(c, env);
    WovenWritten(p, Quote(c.u.upper([B])));
  }

  lemma WovenWritten(p: seq<Token>, upper: Text)
    requires |p| == 7 && p[0].text == [] && p[1].text == [] && p[2].text == upper && p[3].text == []
    requires p[4].text == [F] && p[5].text == [OPEN] && p[6].text == [CLOSE] && |p| == |Significant(Tokens())|
    ensures Woven(Tokens(), p) == upper + [F, OPEN, CLOSE]
  {
    WovenAll(Tokens(), p);
    Written(p, upper);
  }
}
