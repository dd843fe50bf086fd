// Text put together from edited tokens of a view: when the lexer of datamigrate/oscar_view.go reads exactly
// these tokens again.
module ViewJoins {
  import opened Wrappers
  import opened Encoding
  import opened StringLiterals
  import opened ViewLexer
  import opened ViewRelex

  // ---- Where a token's text stands ----

  function Start(tokens: seq<Token>, i: nat): nat
    requires i <= |tokens|
  {
    |Concat(tokens[..i])|
  }

  lemma {:induction false} ConcatJoin(a: seq<Token>, b: seq<Token>)
    ensures Concat(a + b) == Concat(a) + Concat(b)
  {
    if b == [] {
      assert a + b == a;
    } else {
      var front, last := b[..|b| - 1], b[|b| - 1];
      ConcatJoin(a, front);
      assert a + b == (a + front) + [last];
      ConcatSnoc(a + front, last);
      assert Concat(a) + (Concat(front) + last.text) == (Concat(a) + Concat(front)) + last.text;
    }
  }

  lemma StartNext(tokens: seq<Token>, i: nat)
    requires i < |tokens|
    ensures Start(tokens, i + 1) == Start(tokens, i) + |tokens[i].text|
  {
    assert tokens[..i + 1] == tokens[..i] + [tokens[i]];
    ConcatSnoc(tokens[..i], tokens[i]);
  }

  lemma StartInside(tokens: seq<Token>, i: nat)
    requires i <= |tokens|
    ensures Start(tokens, i) <= |Concat(tokens)| && Start(tokens, 0) == 0 && Start(tokens, |tokens|) == |Concat(tokens)|
  {
    assert tokens == tokens[..i] + tokens[i..] && tokens[..|tokens|] == tokens;
    ConcatJoin(tokens[..i], tokens[i..]);
  }

  lemma ConcatBehind(a: seq<Token>, t: Token, rest: seq<Token>)
    ensures Concat((a + [t]) + rest) == Concat(a) + t.text + Concat(rest)
  {
    ConcatJoin(a + [t], rest);
    ConcatSnoc(a, t);
  }

  lemma SplitAt(tokens: seq<Token>, i: nat)
    requires i < |tokens|
    ensures Concat(tokens) == Concat(tokens[..i]) + tokens[i].text + Concat(tokens[i + 1..])
  {
    ConcatBehind(tokens[..i], tokens[i], tokens[i + 1..]);
    Halves(tokens, i);
  }

  lemma Halves(tokens: seq<Token>, i: nat)
    requires i < |tokens|
    ensures (tokens[..i] + [tokens[i]]) + tokens[i + 1..] == tokens
  {}

  lemma MiddleSame(a: Text, b: Text, c: Text)
    ensures (a + b + c)[|a|..|a| + |b|] == b && Same(a + b + c, |a|, b, 0, |b|)
  {
    assert (a + b + c)[|a|..|a| + |b|] == b[0..|b|];
    SameSlices(a + b + c, |a|, b, 0, |b|);
  }

  lemma PieceAt(tokens: seq<Token>, i: nat)
    requires i < |tokens|
    ensures Start(tokens, i + 1) == Start(tokens, i) + |tokens[i].text| <= |Concat(tokens)|
    ensures Same(Concat(tokens), Start(tokens, i), tokens[i].text, 0, |tokens[i].text|)
    ensures Concat(tokens)[Start(tokens, i)..Start(tokens, i + 1)] == tokens[i].text
  {
    StartNext(tokens, i);
    SplitAt(tokens, i);
    MiddleSame(Concat(tokens[..i]), tokens[i].text, Concat(tokens[i + 1..]));
  }

  // ---- The tokens that are left ----

  function Left(tokens: seq<Token>): seq<Token> {
    if tokens == [] then []
    else Left(tokens[..|tokens| - 1]) + (if tokens[|tokens| - 1].text == [] then [] else [tokens[|tokens| - 1]])
  }

  lemma LeftNext(tokens: seq<Token>, i: nat)
    requires i < |tokens|
    ensures Left(tokens[..i + 1]) == Left(tokens[..i]) + (if tokens[i].text == [] then [] else [tokens[i]])
  {
    assert tokens[..i + 1][..i] == tokens[..i];
  }

  lemma {:induction false} LeftPrefix(tokens: seq<Token>, i: nat)
    requires i <= |tokens|
    ensures Left(tokens[..i]) <= Left(tokens)
    decreases |tokens| - i
  {
    if i < |tokens| {
      LeftNext(tokens, i);
      LeftPrefix(tokens, i + 1);
    } else {
      assert tokens[..i] == tokens;
    }
  }

  // The lexer reads the k-th token where its text stands.
  ghost predicate ReadsAt(u: Unicode, tokens: seq<Token>, k: nat)
    requires k < |tokens|
  {
    Reads(u, Concat(tokens), Start(tokens, k), ArrayBracket(u, Left(tokens[..k])), tokens[k])
  }

  lemma {:induction false} LexFromExtends(u: Unicode, s: Text, i: nat, before: seq<Token>)
    requires i <= |s| && LexFrom(u, s, i, before).Success?
    ensures before <= LexFrom(u, s, i, before).value
    decreases |s| - i
  {
    if i < |s| {
      var one := Scan(u, s, i, ArrayBracket(u, before)).value;
      LexFromExtends(u, s, one.end, before + [Token(s[i..one.end], one.name, one.kind)]);
    }
  }

  lemma ReadStep(u: Unicode, s: Text, p: nat, before: seq<Token>, t: Token)
    requires Reads(u, s, p, ArrayBracket(u, before), t) && s[p..p + |t.text|] == t.text
    ensures LexFrom(u, s, p, before) == LexFrom(u, s, p + |t.text|, before + [t])
  {
    var one := Scan(u, s, p, ArrayBracket(u, before));
    assert one == Success(Lexeme(t.kind, p + |t.text|, t.name));
    assert Token(s[p..one.value.end], one.value.name, one.value.kind) == t;
  }

  lemma ReadBack(u: Unicode, s: Text, p: nat, before: seq<Token>, t: Token, all: seq<Token>)
    requires t.text != [] && Same(s, p, t.text, 0, |t.text|)
    requires LexFrom(u, s, p, before) == Success(all) && before + [t] <= all
    ensures Reads(u, s, p, ArrayBracket(u, before), t)
  {
    var one := Scan(u, s, p, ArrayBracket(u, before)).value;
    var next := Token(s[p..one.end], one.name, one.kind);
    LexFromExtends(u, s, one.end, before + [next]);
    assert next == (before + [next])[|before|] == all[|before|] == (before + [t])[|before|] == t;
    assert |s[p..one.end]| == one.end - p;
  }

  ghost predicate AllRead(u: Unicode, ts: seq<Token>, i: nat) {
    forall k :: i <= k < |ts| && ts[k].text != [] ==> ReadsAt(u, ts, k)
  }

  lemma AllReadNext(u: Unicode, ts: seq<Token>, i: nat)
    requires i < |ts|
    ensures AllRead(u, ts, i) <==> (ts[i].text == [] || ReadsAt(u, ts, i)) && AllRead(u, ts, i + 1)
  {}

  ghost predicate LexesAt(u: Unicode, ts: seq<Token>, i: nat)
    requires i <= |ts|
  {
    Start(ts, i) <= |Concat(ts)| && LexFrom(u, Concat(ts), Start(ts, i), Left(ts[..i])) == Success(Left(ts))
  }

  lemma LexesSkip(u: Unicode, ts: seq<Token>, i: nat)
    requires i < |ts| && ts[i].text == []
    ensures LexesAt(u, ts, i) <==> LexesAt(u, ts, i + 1)
  {
    StartNext(ts, i);
    LeftNext(ts, i);
    assert Left(ts[..i]) + [] == Left(ts[..i]);
  }

  lemma LexesForth(u: Unicode, ts: seq<Token>, i: nat)
    requires i < |ts| && ts[i].text != [] && ReadsAt(u, ts, i)
    ensures LexesAt(u, ts, i) <==> LexesAt(u, ts, i + 1)
  {
    PieceAt(ts, i);
    LeftNext(ts, i);
    ReadOn(u, Concat(ts), Start(ts, i), Left(ts[..i]), ts[i], Start(ts, i + 1), Left(ts[..i + 1]));
  }

  lemma ReadOn(u: Unicode, s: Text, p: nat, before: seq<Token>, t: Token, next: nat, after: seq<Token>)
    requires Reads(u, s, p, ArrayBracket(u, before), t) && next == p + |t.text| && s[p..next] == t.text
    requires after == before + [t]
    ensures LexFrom(u, s, p, before) == LexFrom(u, s, next, after)
  {
    ReadStep(u, s, p, before, t);
  }

  lemma LexesBack(u: Unicode, ts: seq<Token>, i: nat)
    requires i < |ts| && ts[i].text != [] && LexesAt(u, ts, i)
    ensures ReadsAt(u, ts, i)
  {
    PieceAt(ts, i);
    LeftNext(ts, i);
    LeftPrefix(ts, i + 1);
    ReadBack(u, Concat(ts), Start(ts, i), Left(ts[..i]), ts[i], Left(ts));
  }

  lemma LexesNext(u: Unicode, ts: seq<Token>, i: nat)
    requires i < |ts|
    ensures LexesAt(u, ts, i) <==> (ts[i].text == [] || ReadsAt(u, ts, i)) && LexesAt(u, ts, i + 1)
  {
    if ts[i].text == [] {
      LexesSkip(u, ts, i);
    } else if ReadsAt(u, ts, i) {
      LexesForth(u, ts, i);
    } else if LexesAt(u, ts, i) {
      LexesBack(u, ts, i);
    }
  }

  lemma LexesEnd(u: Unicode, ts: seq<Token>)
    ensures LexesAt(u, ts, |ts|)
  {
    assert ts[..|ts|] == ts;
  }

  // The text lexes into the tokens that are left exactly if each of them is read where it stands.
  lemma {:induction false} LexesFrom(u: Unicode, ts: seq<Token>, i: nat)
    requires i <= |ts|
    ensures LexesAt(u, ts, i) <==> AllRead(u, ts, i)
    decreases |ts| - i
  {
    if i == |ts| {
      LexesEnd(u, ts);
    } else {
      LexesNext(u, ts, i);
      AllReadNext(u, ts, i);
      LexesFrom(u, ts, i + 1);
    }
  }

  lemma Relexes(u: Unicode, ts: seq<Token>)
    ensures Lexed(u, Concat(ts)) == Success(Left(ts)) <==> AllRead(u, ts, 0)
  {
    assert ts[..0] == [];
    LexesFrom(u, ts, 0);
  }

  // ---- The tokens of a lexed text ----

  // Every token is read where it stands, behind all the others.
  ghost predicate Source(u: Unicode, tokens: seq<Token>) {
    forall k :: 0 <= k < |tokens| ==> tokens[k].text != [] && SourceAt(u, tokens, k)
  }

  ghost predicate SourceAt(u: Unicode, tokens: seq<Token>, k: nat)
    requires k < |tokens|
  {
    Reads(u, Concat(tokens), Start(tokens, k), ArrayBracket(u, tokens[..k]), tokens[k])
  }

  lemma {:induction false} LexFromConcat(u: Unicode, s: Text, i: nat, before: seq<Token>)
    requires i <= |s| && LexFrom(u, s, i, before).Success? && Concat(before) == s[..i]
    ensures Concat(LexFrom(u, s, i, before).value) == s
    decreases |s| - i
  {
    if i < |s| {
      var one := Scan(u, s, i, ArrayBracket(u, before)).value;
      var t := Token(s[i..one.end], one.name, one.kind);
      ConcatSnoc(before, t);
      assert s[..one.end] == s[..i] + t.text;
      LexFromConcat(u, s, one.end, before + [t]);
    } else {
      assert s[..i] == s;
    }
  }

  lemma {:induction false} LeftAll(tokens: seq<Token>)
    requires forall t :: t in tokens ==> t.text != []
    ensures Left(tokens) == tokens
  {
    if tokens != [] {
      LeftAll(tokens[..|tokens| - 1]);
      assert tokens == tokens[..|tokens| - 1] + [tokens[|tokens| - 1]];
    }
  }

  lemma LexedIsSource(u: Unicode, sql: Text, tokens: seq<Token>)
    requires Lexed(u, sql) == Success(tokens)
    ensures Concat(tokens) == sql && Source(u, tokens)
  {
    LexFromConcat(u, sql, 0, []);
    TokensWellFormed(u, sql, 0, []);
    LeftAll(tokens);
    Relexes(u, tokens);
    forall k | 0 <= k < |tokens| ensures tokens[k].text != [] && SourceAt(u, tokens, k) {
      assert tokens[k] in tokens && ReadsAt(u, tokens, k);
      LeftAll(tokens[..k]);
    }
  }

  // ---- Edited tokens ----

  predicate Requoted(f: Token) { f.kind == QuotedName && f.text == Quote(f.name) }

  // What may stand behind a token that is dropped: no symbol but a dot.
  predicate MayFollow(t: Token) { t.kind != Punctuation || t.text == [DOT] }

  predicate IsName(t: Token) { t.kind == Identifier || t.kind == QuotedName }

  // A token stays, a name may become a quoted name, and a name or a dot may be dropped.
  ghost predicate EditAt(tokens: seq<Token>, finals: seq<Token>, i: int)
    requires |finals| == |tokens|
  {
    0 <= i < |tokens| ==>
      || finals[i] == tokens[i] || (IsName(tokens[i]) && Requoted(finals[i]))
      || (finals[i].text == [] && (IsName(tokens[i]) || tokens[i].text == [DOT])
          && (i + 1 < |tokens| ==> MayFollow(tokens[i + 1])))
  }

  ghost predicate Edit(tokens: seq<Token>, finals: seq<Token>) {
    |finals| == |tokens| && forall i :: EditAt(tokens, finals, i)
  }

  // ---- Where the first character of a token ends ----

  // Only a symbol that is no character of its own begins with a continuation byte.
  lemma ContinuationIsSymbol(u: Unicode, s: Text, i: nat, b: bool, t: Token)
    requires Reads(u, s, i, b, t) && Continuation(t.text[0])
    ensures |t.text| == 1 && t.kind == Punctuation
  {
    Begins(u, s, i, b, t);
  }

  lemma FollowerBegins(u: Unicode, tokens: seq<Token>, i: nat)
    requires Source(u, tokens) && i < |tokens| && MayFollow(tokens[i])
    ensures !Continuation(tokens[i].text[0])
  {
    assert SourceAt(u, tokens, i);
    if Continuation(tokens[i].text[0]) {
      ContinuationIsSymbol(u, Concat(tokens), Start(tokens, i), ArrayBracket(u, tokens[..i]), tokens[i]);
    }
  }

  ghost predicate NoContinuation(s: Text, i: nat) { i < |s| ==> !Continuation(s[i]) }

  // A text put together from a token on begins with a continuation byte only if the token did.
  lemma {:induction false} NoneAhead(u: Unicode, tokens: seq<Token>, finals: seq<Token>, i: nat)
    requires Source(u, tokens) && Edit(tokens, finals) && i <= |tokens|
    requires i < |tokens| ==> !Continuation(tokens[i].text[0])
    ensures NoContinuation(Concat(finals), Start(finals, i))
    decreases |tokens| - i
  {
    StartInside(finals, i);
    if i < |tokens| {
      assert EditAt(tokens, finals, i);
      PieceAt(finals, i);
      if finals[i].text == [] {
        if i + 1 < |tokens| { FollowerBegins(u, tokens, i + 1); }
        NoneAhead(u, tokens, finals, i + 1);
      } else {
        SameAt(Concat(finals), Start(finals, i), finals[i].text, 0, |finals[i].text|, 0);
      }
    }
  }

  ghost predicate Continuations(s: Text, i: nat, n: nat)
    decreases n
  {
    n > 0 ==> i < |s| && Continuation(s[i]) && Continuations(s, i + 1, n - 1)
  }

  // Continuation bytes stand where they stood.
  lemma {:induction false} ContinuationsStay(u: Unicode, tokens: seq<Token>, finals: seq<Token>, i: nat, n: nat)
    requires Source(u, tokens) && Edit(tokens, finals) && i <= |tokens|
    requires Continuations(Concat(finals), Start(finals, i), n)
    ensures Same(Concat(finals), Start(finals, i), Concat(tokens), Start(tokens, i), n)
    decreases n
  {
    StartInside(finals, i);
    StartInside(tokens, i);
    if n > 0 { OneStays(u, tokens, finals, i); ContinuationsStay(u, tokens, finals, i + 1, n - 1); }
  }

  lemma OneStays(u: Unicode, tokens: seq<Token>, finals: seq<Token>, i: nat)
    requires Source(u, tokens) && Edit(tokens, finals) && i <= |tokens|
    requires Start(finals, i) < |Concat(finals)| && Continuation(Concat(finals)[Start(finals, i)])
    ensures i < |tokens| && Start(finals, i + 1) == Start(finals, i) + 1 && Start(tokens, i + 1) == Start(tokens, i) + 1
    ensures Start(tokens, i) < |Concat(tokens)|
            && Concat(finals)[Start(finals, i)] == Concat(tokens)[Start(tokens, i)]
  {
    StartInside(finals, i);
    if i < |tokens| {
      assert EditAt(tokens, finals, i) && SourceAt(u, tokens, i);
      PieceAt(finals, i);
      PieceAt(tokens, i);
      if finals[i].text == [] { NothingDropped(u, tokens, finals, i); }
      SameAt(Concat(finals), Start(finals, i), finals[i].text, 0, |finals[i].text|, 0);
      ContinuationIsSymbol(u, Concat(tokens), Start(tokens, i), ArrayBracket(u, tokens[..i]), tokens[i]);
      SameAt(Concat(tokens), Start(tokens, i), tokens[i].text, 0, |tokens[i].text|, 0);
    }
  }

  lemma NothingDropped(u: Unicode, tokens: seq<Token>, finals: seq<Token>, i: nat)
    requires Source(u, tokens) && Edit(tokens, finals) && i < |tokens|
    requires Start(finals, i) < |Concat(finals)| && Continuation(Concat(finals)[Start(finals, i)])
    ensures finals[i].text != []
  {
    if finals[i].text == [] {
      assert EditAt(tokens, finals, i) && SourceAt(u, tokens, i);
      StartNext(finals, i);
      if i + 1 < |tokens| { FollowerBegins(u, tokens, i + 1); }
      NoneAhead(u, tokens, finals, i + 1);
    }
  }

  // The first character of a token lies within its text, or its first byte begins none.
  lemma RuneInToken(u: Unicode, s: Text, i: nat, b: bool, t: Token)
    requires Reads(u, s, i, b, t)
    ensures if s[i] >= 128 && Encoded(s, i) then Need(s[i]) <= |t.text| else s[i] < 128 || |t.text| == 1
    ensures Decode(t.text, 0) == Decode(s, i)
  {
    Begins(u, s, i, b, t);
    if s[i] >= 128 && Encoded(s, i) {
      SameUpTo(s, i, t.text, 0, |t.text|, Need(s[i]));
      DecodeWithin(s, i, t.text, 0);
    }
  }

  lemma TextSame(tokens: seq<Token>, finals: seq<Token>, i: nat)
    requires i < |tokens| == |finals| && finals[i] == tokens[i]
    ensures Same(Concat(tokens), Start(tokens, i), Concat(finals), Start(finals, i), |tokens[i].text|)
  {
    PieceAt(tokens, i);
    PieceAt(finals, i);
    SameSlices(Concat(tokens), Start(tokens, i), Concat(finals), Start(finals, i), |tokens[i].text|);
  }

  // A token that stays keeps its first character, whatever has become of the text behind it.
  lemma SameRune(u: Unicode, tokens: seq<Token>, finals: seq<Token>, i: nat)
    requires Source(u, tokens) && Edit(tokens, finals) && i < |tokens| && finals[i] == tokens[i]
    ensures Start(finals, i) < |Concat(finals)| && Start(tokens, i) < |Concat(tokens)|
    ensures Decode(Concat(finals), Start(finals, i)) == Decode(Concat(tokens), Start(tokens, i))
  {
    var s, p, r, q := Concat(tokens), Start(tokens, i), Concat(finals), Start(finals, i);
    assert SourceAt(u, tokens, i);
    PieceAt(tokens, i);
    PieceAt(finals, i);
    RuneInToken(u, s, p, ArrayBracket(u, tokens[..i]), tokens[i]);
    TextSame(tokens, finals, i);
    SameAt(s, p, r, q, |tokens[i].text|, 0);
    if s[p] >= 128 {
      if Encoded(s, p) {
        SameUpTo(s, p, r, q, |tokens[i].text|, Need(s[p]));
        DecodeWithin(s, p, r, q);
      } else if Encoded(r, q) {
        StillNoRune(u, tokens, finals, i);
      }
    }
  }

  lemma StillNoRune(u: Unicode, tokens: seq<Token>, finals: seq<Token>, i: nat)
    requires Source(u, tokens) && Edit(tokens, finals) && i < |tokens| && finals[i] == tokens[i]
    requires |tokens[i].text| == 1
    requires Start(finals, i) < |Concat(finals)| && Start(tokens, i) < |Concat(tokens)|
    requires Encoded(Concat(finals), Start(finals, i))
    ensures Encoded(Concat(tokens), Start(tokens, i))
  {
    var s, p, r, q := Concat(tokens), Start(tokens, i), Concat(finals), Start(finals, i);
    PieceAt(tokens, i);
    PieceAt(finals, i);
    TextSame(tokens, finals, i);
    SameAt(s, p, r, q, 1, 0);
    var n := Need(r[q]);
    EncodedContinues(r, q);
    ContinuationsStay(u, tokens, finals, i + 1, n - 1);
    assert Same(r, q, s, p, n);
    DecodeWithin(r, q, s, p);
  }

  lemma EncodedContinues(s: Text, i: nat)
    requires i < |s| && Encoded(s, i)
    ensures Need(s[i]) > 0 && Continuations(s, i + 1, Need(s[i]) - 1)
  {
    assert Continuations(s, i + Need(s[i]), 0);
    assert Continuations(s, i + Need(s[i]) - 1, 1);
    if Need(s[i]) > 2 { assert Continuations(s, i + Need(s[i]) - 2, 2); }
    if Need(s[i]) > 3 { assert Continuations(s, i + 1, 3); }
  }

  // ---- One token among edited ones ----

  ghost predicate EndsWell(u: Unicode, finals: seq<Token>, k: nat)
    requires k < |finals|
  {
    Stops(u, Concat(finals), Start(finals, k), finals[k])
  }

  predicate Bracketed(t: Token) { t.kind == QuotedName && t.text != [] && t.text[0] == LBRACKET }

  // A bracketed name is not taken for an index.
  ghost predicate NoIndex(u: Unicode, finals: seq<Token>, k: nat)
    requires k < |finals|
  {
    Bracketed(finals[k]) ==> !ArrayBracket(u, Left(finals[..k]))
  }

  lemma LeftLast(u: Unicode, finals: seq<Token>, k: nat)
    requires 0 < k <= |finals| && finals[k - 1].text != []
    ensures ArrayBracket(u, Left(finals[..k])) == ArrayBracket(u, [finals[k - 1]])
  {
    LeftNext(finals, k - 1);
  }

  // An index stays one: the token in front of it is neither dropped nor turned into anything but a name.
  lemma IndexStays(u: Unicode, tokens: seq<Token>, finals: seq<Token>, k: nat)
    requires Edit(tokens, finals) && 0 < k < |tokens| && tokens[k - 1].text != []
    requires tokens[k].kind == Punctuation && tokens[k].text != [] && tokens[k].text[0] == LBRACKET
    requires ArrayBracket(u, tokens[..k])
    ensures ArrayBracket(u, Left(finals[..k]))
  {
    assert EditAt(tokens, finals, k - 1);
    LeftLast(u, finals, k);
    assert tokens[..k][k - 1] == tokens[k - 1];
  }

  // Where a bracket stays, it is read as before unless its name is taken for an index.
  lemma BracketStays(u: Unicode, tokens: seq<Token>, finals: seq<Token>, k: nat)
    requires Source(u, tokens) && Edit(tokens, finals) && k < |tokens| && finals[k] == tokens[k]
    requires tokens[k].text[0] == LBRACKET && NoIndex(u, finals, k)
    ensures ArrayBracket(u, tokens[..k]) == ArrayBracket(u, Left(finals[..k]))
  {
    var b := ArrayBracket(u, tokens[..k]);
    assert SourceAt(u, tokens, k);
    BracketReads(u, Concat(tokens), Start(tokens, k), b, tokens[k]);
    if b {
      assert SourceAt(u, tokens, k - 1);
      IndexStays(u, tokens, finals, k);
    }
  }

  lemma StaysRead(u: Unicode, tokens: seq<Token>, finals: seq<Token>, k: nat)
    requires Source(u, tokens) && Edit(tokens, finals) && k < |tokens| && finals[k] == tokens[k]
    requires EndsWell(u, finals, k) && NoIndex(u, finals, k)
    ensures ReadsAt(u, finals, k)
  {
    assert SourceAt(u, tokens, k);
    StaysAlike(u, tokens, finals, k);
    if tokens[k].text[0] == LBRACKET { BracketStays(u, tokens, finals, k); }
    ReadsAgain(u, Concat(tokens), Start(tokens, k), Concat(finals), Start(finals, k), tokens[k],
      ArrayBracket(u, tokens[..k]), ArrayBracket(u, Left(finals[..k])));
  }

  lemma StaysAlike(u: Unicode, tokens: seq<Token>, finals: seq<Token>, k: nat)
    requires Source(u, tokens) && Edit(tokens, finals) && k < |tokens| && finals[k] == tokens[k]
    requires EndsWell(u, finals, k)
    ensures Alike(u, Concat(tokens), Start(tokens, k), Concat(finals), Start(finals, k), tokens[k])
  {
    SameRune(u, tokens, finals, k);
    TextSame(tokens, finals, k);
  }

  lemma RewrittenRead(u: Unicode, finals: seq<Token>, k: nat)
    requires k < |finals| && Requoted(finals[k]) && EndsWell(u, finals, k)
    ensures ReadsAt(u, finals, k)
  {
    var f := finals[k];
    SplitAt(finals, k);
    StartNext(finals, k);
    BehindStart(finals, k + 1);
    assert f == Token(Quote(f.name), f.name, QuotedName);
    QuotedReads(u, Concat(finals), Start(finals, k), ArrayBracket(u, Left(finals[..k])), f.name,
      Concat(finals[..k]), Concat(finals[k + 1..]));
  }

  lemma BehindStart(finals: seq<Token>, k: nat)
    requires k <= |finals| && Start(finals, k) <= |Concat(finals)|
    ensures Concat(finals)[Start(finals, k)..] == Concat(finals[k..])
    ensures Concat(finals[k..]) != [] ==>
              Start(finals, k) < |Concat(finals)| && Concat(finals)[Start(finals, k)] == Concat(finals[k..])[0]
  {
    assert finals == finals[..k] + finals[k..];
    ConcatJoin(finals[..k], finals[k..]);
    TailOf(Concat(finals[..k]), Concat(finals[k..]));
  }

  lemma TailOf(a: Text, b: Text)
    ensures (a + b)[|a|..] == b && (b != [] ==> (a + b)[|a|] == b[0])
  {}

  // Each token of the new text is read exactly if it ends well and is no name taken for an index.
  lemma ReadExactly(u: Unicode, tokens: seq<Token>, finals: seq<Token>, k: nat)
    requires Source(u, tokens) && Edit(tokens, finals) && k < |tokens| && finals[k].text != []
    ensures ReadsAt(u, finals, k) <==> EndsWell(u, finals, k) && NoIndex(u, finals, k)
  {
    assert EditAt(tokens, finals, k);
    if ReadsAt(u, finals, k) {
      ReadIsWell(u, finals, k);
    } else if EndsWell(u, finals, k) && NoIndex(u, finals, k) {
      if finals[k] == tokens[k] { StaysRead(u, tokens, finals, k); } else { RewrittenRead(u, finals, k); }
    }
  }

  lemma ReadIsWell(u: Unicode, finals: seq<Token>, k: nat)
    requires k < |finals| && finals[k].text != [] && ReadsAt(u, finals, k)
    ensures EndsWell(u, finals, k) && NoIndex(u, finals, k)
  {
    WellWhenRead(u, Concat(finals), Start(finals, k), ArrayBracket(u, Left(finals[..k])), finals[k]);
  }

  lemma WellWhenRead(u: Unicode, s: Text, p: nat, b: bool, t: Token)
    requires Reads(u, s, p, b, t)
    ensures Stops(u, s, p, t) && (Bracketed(t) ==> !b)
  {
    if p + |t.text| < |s| { ReadsStops(u, s, p, b, t); }
    if t.text[0] == LBRACKET { BracketReads(u, s, p, b, t); }
  }

  // ---- Neighbours in the new text ----

  // Both are left, and nothing is left between them.
  ghost predicate Neighbours(ts: seq<Token>, i: int, j: int) {
    && 0 <= i < j < |ts| && ts[i].text != [] && ts[j].text != []
    && forall k :: i < k < j ==> ts[k].text == []
  }

  // Written one behind the other, these two are not read as these two.
  predicate Joins(u: Unicode, a: Token, b: Token)
    requires a.text != [] && b.text != []
  {
    Fuses(u, a, b.text, 0) || (Bracketed(b) && ArrayBracket(u, [a]))
  }

  lemma {:induction false} GapIsEmpty(ts: seq<Token>, i: nat, j: nat)
    requires i <= j <= |ts| && forall k :: i <= k < j ==> ts[k].text == []
    ensures Start(ts, j) == Start(ts, i) && Left(ts[..j]) == Left(ts[..i])
    decreases j - i
  {
    if i < j {
      GapIsEmpty(ts, i, j - 1);
      StartNext(ts, j - 1);
      LeftNext(ts, j - 1);
      assert Left(ts[..j - 1]) + [] == Left(ts[..j - 1]);
    }
  }

  lemma NeighbourStarts(u: Unicode, ts: seq<Token>, i: int, j: int)
    requires Neighbours(ts, i, j)
    ensures Start(ts, j) == Start(ts, i) + |ts[i].text| < |Concat(ts)|
    ensures ArrayBracket(u, Left(ts[..j])) == ArrayBracket(u, [ts[i]])
  {
    StartNext(ts, i);
    PieceAt(ts, j);
    GapIsEmpty(ts, i + 1, j);
    LeftLast(u, ts, i + 1);
  }

  lemma FirstByte(ts: seq<Token>, j: nat)
    requires j < |ts| && ts[j].text != []
    ensures Start(ts, j) + |ts[j].text| <= |Concat(ts)| && Concat(ts)[Start(ts, j)] == ts[j].text[0]
  {
    PieceAt(ts, j);
    SameAt(Concat(ts), Start(ts, j), ts[j].text, 0, |ts[j].text|, 0);
  }

  lemma UnchangedRune(u: Unicode, tokens: seq<Token>, finals: seq<Token>, j: nat)
    requires Source(u, tokens) && Edit(tokens, finals) && j < |tokens| && finals[j] == tokens[j]
    ensures Start(finals, j) < |Concat(finals)|
    ensures Decode(Concat(finals), Start(finals, j)) == Decode(tokens[j].text, 0)
    ensures tokens[j].text[0] == QUOTE ==> |tokens[j].text| > 1
  {
    assert SourceAt(u, tokens, j);
    SameRune(u, tokens, finals, j);
    RuneInToken(u, Concat(tokens), Start(tokens, j), ArrayBracket(u, tokens[..j]), tokens[j]);
    LiteralLong(u, Concat(tokens), Start(tokens, j), ArrayBracket(u, tokens[..j]), tokens[j]);
  }

  // The first byte and character of a token in the new text are those of its own.
  lemma FinalRune(u: Unicode, tokens: seq<Token>, finals: seq<Token>, j: nat)
    requires Source(u, tokens) && Edit(tokens, finals) && j < |tokens| && finals[j].text != []
    ensures Start(finals, j) + |finals[j].text| <= |Concat(finals)|
    ensures Concat(finals)[Start(finals, j)] == finals[j].text[0]
    ensures Decode(Concat(finals), Start(finals, j)) == Decode(finals[j].text, 0)
    ensures finals[j].text[0] == QUOTE ==> |finals[j].text| > 1
  {
    FirstByte(finals, j);
    assert EditAt(tokens, finals, j);
    if finals[j] == tokens[j] { UnchangedRune(u, tokens, finals, j); }
  }

  lemma FuseAlike(u: Unicode, t: Token, s: Text, p: nat, next: Text)
    requires t.text != [] && p < |s| && next != [] && s[p] == next[0] && Decode(s, p) == Decode(next, 0)
    requires next[0] == QUOTE ==> |next| > 1 && p + 1 < |s|
    ensures Fuses(u, t, s, p) == Fuses(u, t, next, 0)
  {}

  lemma NeighbourFuses(u: Unicode, tokens: seq<Token>, finals: seq<Token>, i: int, j: int)
    requires Source(u, tokens) && Edit(tokens, finals) && Neighbours(finals, i, j)
    ensures EndsWell(u, finals, i) <==> !Fuses(u, finals[i], finals[j].text, 0)
  {
    NeighbourStarts(u, finals, i, j);
    FinalRune(u, tokens, finals, j);
    FuseAlike(u, finals[i], Concat(finals), Start(finals, j), finals[j].text);
  }

  lemma {:induction false} NextLeft(ts: seq<Token>, i: nat, k: nat) returns (j: nat)
    requires i < k <= |ts| && ts[i].text != [] && forall m :: i < m < k ==> ts[m].text == []
    ensures k <= j <= |ts| && if j < |ts| then Neighbours(ts, i, j) else forall m :: i < m < |ts| ==> ts[m].text == []
    decreases |ts| - k
  {
    if k == |ts| || ts[k].text != [] { j := k; } else { j := NextLeft(ts, i, k + 1); }
  }

  lemma {:induction false} LastLeft(ts: seq<Token>, k: nat, j: nat) returns (i: int)
    requires k <= j < |ts| && ts[j].text != [] && forall m :: k <= m < j ==> ts[m].text == []
    ensures if i < 0 then forall m :: 0 <= m < j ==> ts[m].text == [] else Neighbours(ts, i, j)
    decreases k
  {
    if k == 0 { i := -1; } else if ts[k - 1].text != [] { i := k - 1; } else { i := LastLeft(ts, k - 1, j); }
  }

  ghost predicate NoneJoin(u: Unicode, finals: seq<Token>) {
    forall i, j :: Neighbours(finals, i, j) ==> !Joins(u, finals[i], finals[j])
  }

  lemma LastEndsWell(u: Unicode, finals: seq<Token>, k: nat)
    requires k < |finals| && finals[k].text != [] && forall m :: k < m < |finals| ==> finals[m].text == []
    ensures EndsWell(u, finals, k)
  {
    StartNext(finals, k);
    StartInside(finals, |finals|);
    GapIsEmpty(finals, k + 1, |finals|);
  }

  lemma NoJoinReads(u: Unicode, tokens: seq<Token>, finals: seq<Token>, k: nat)
    requires Source(u, tokens) && Edit(tokens, finals) && k < |tokens| && finals[k].text != [] && NoneJoin(u, finals)
    ensures EndsWell(u, finals, k) && NoIndex(u, finals, k)
  {
    var j := NextLeft(finals, k, k + 1);
    if j < |finals| { NeighbourFuses(u, tokens, finals, k, j); } else { LastEndsWell(u, finals, k); }
    var i := LastLeft(finals, k, k);
    if i < 0 {
      GapIsEmpty(finals, 0, k);
      assert finals[..0] == [];
    } else {
      NeighbourStarts(u, finals, i, k);
    }
  }

  lemma ReadsNoJoin(u: Unicode, tokens: seq<Token>, finals: seq<Token>, i: int, j: int)
    requires Source(u, tokens) && Edit(tokens, finals) && Neighbours(finals, i, j)
    requires EndsWell(u, finals, i) && NoIndex(u, finals, j)
    ensures !Joins(u, finals[i], finals[j])
  {
    NeighbourStarts(u, finals, i, j);
    NeighbourFuses(u, tokens, finals, i, j);
  }

  // The edited text lexes into exactly the tokens that are left if and only if no two neighbours join.
  lemma RelexesExactly(u: Unicode, sql: Text, tokens: seq<Token>, finals: seq<Token>)
    requires Lexed(u, sql) == Success(tokens) && Edit(tokens, finals)
    ensures Lexed(u, Concat(finals)) == Success(Left(finals)) <==> NoneJoin(u, finals)
  {
    LexedIsSource(u, sql, tokens);
    Relexes(u, finals);
    if AllRead(u, finals, 0) {
      forall i, j | Neighbours(finals, i, j) ensures !Joins(u, finals[i], finals[j]) {
        ReadExactly(u, tokens, finals, i);
        ReadExactly(u, tokens, finals, j);
        ReadsNoJoin(u, tokens, finals, i, j);
      }
    }
    if NoneJoin(u, finals) {
      forall k: nat | k < |finals| && finals[k].text != [] ensures ReadsAt(u, finals, k) {
        NoJoinReads(u, tokens, finals, k);
        ReadExactly(u, tokens, finals, k);
      }
    }
  }

  // ---- Where tokens can join ----

  lemma ItselfIsEdit(tokens: seq<Token>)
    ensures Edit(tokens, tokens)
  {}

  lemma UnchangedDoNotJoin(u: Unicode, sql: Text, tokens: seq<Token>, i: nat)
    requires Lexed(u, sql) == Success(tokens) && i + 1 < |tokens|
    ensures tokens[i].text != [] && tokens[i + 1].text != [] && !Joins(u, tokens[i], tokens[i + 1])
  {
    LexedIsSource(u, sql, tokens);
    ItselfIsEdit(tokens);
    RelexesExactly(u, sql, tokens, tokens);
    forall t | t in tokens ensures t.text != [] { var k :| 0 <= k < |tokens| && tokens[k] == t; }
    LeftAll(tokens);
    assert Neighbours(tokens, i, i + 1);
  }

  // Next to a name that was written anew only a double quote or, behind it, a bracketed name joins. Tokens
  // that stayed join only if a name or a dot was dropped between them, and then as their own texts do.
  ghost predicate Meets(u: Unicode, tokens: seq<Token>, finals: seq<Token>, i: int, j: int)
    requires |finals| == |tokens| && Neighbours(finals, i, j)
  {
    if finals[i] == tokens[i] && finals[j] == tokens[j] then j > i + 1 && Joins(u, tokens[i], tokens[j])
    else
      || (finals[i].text[0] == DOUBLE && finals[j].text[0] == DOUBLE)
      || (finals[i] != tokens[i] && Bracketed(finals[j]))
  }

  lemma JoinsExactly(u: Unicode, sql: Text, tokens: seq<Token>, finals: seq<Token>, i: int, j: int)
    requires Lexed(u, sql) == Success(tokens) && Edit(tokens, finals) && Neighbours(finals, i, j)
    ensures Joins(u, finals[i], finals[j]) <==> Meets(u, tokens, finals, i, j)
  {
    LexedIsSource(u, sql, tokens);
    assert EditAt(tokens, finals, i) && EditAt(tokens, finals, j);
    if finals[j] != tokens[j] {
      BeforeRewritten(u, sql, tokens, finals, i, j);
    } else if finals[i] == tokens[i] && j == i + 1 {
      UnchangedDoNotJoin(u, sql, tokens, i);
    }
  }

  lemma TriviaStays(u: Unicode, tokens: seq<Token>, finals: seq<Token>, i: nat)
    requires Source(u, tokens) && Edit(tokens, finals) && i < |tokens| && tokens[i].kind == Trivia
    ensures finals[i] == tokens[i] && tokens[i].text != []
  {
    assert SourceAt(u, tokens, i) && EditAt(tokens, finals, i);
    TriviaIsNoDot(u, Concat(tokens), Start(tokens, i), ArrayBracket(u, tokens[..i]), tokens[i]);
  }

  lemma CommentBeforeTrivia(u: Unicode, sql: Text, tokens: seq<Token>, i: nat)
    requires Lexed(u, sql) == Success(tokens) && Source(u, tokens) && i + 1 < |tokens|
    requires tokens[i].kind == Trivia && At(tokens[i].text, 0, DASH, DASH)
    ensures tokens[i + 1].kind == Trivia
  {
    assert SourceAt(u, tokens, i + 1);
    UnchangedDoNotJoin(u, sql, tokens, i);
    LineFeedIsTrivia(u, Concat(tokens), Start(tokens, i + 1), ArrayBracket(u, tokens[..i + 1]), tokens[i + 1]);
  }

  // A line comment is not directly in front of a name.
  lemma NoCommentBefore(u: Unicode, sql: Text, tokens: seq<Token>, finals: seq<Token>, i: int, j: int)
    requires Lexed(u, sql) == Success(tokens) && Source(u, tokens) && Edit(tokens, finals) && Neighbours(finals, i, j)
    requires finals[j] != tokens[j]
    ensures tokens[i].kind == Trivia ==> !At(tokens[i].text, 0, DASH, DASH)
  {
    if tokens[i].kind == Trivia && At(tokens[i].text, 0, DASH, DASH) {
      CommentBeforeTrivia(u, sql, tokens, i);
      TriviaStays(u, tokens, finals, i + 1);
    }
  }

  // A double quote continues a double-quoted name only.
  lemma DoubleFuses(u: Unicode, a: Token, next: Text)
    requires a.text != [] && next != [] && next[0] == DOUBLE
    requires a.kind == Trivia ==> !At(a.text, 0, DASH, DASH)
    requires a.text[0] == DOUBLE ==> a.kind == QuotedName
    requires a.kind == QuotedName ==> a.text[0] == DOUBLE || a.text[0] == BACKTICK || a.text[0] == LBRACKET
    ensures Fuses(u, a, next, 0) <==> a.text[0] == DOUBLE
  {}

  lemma BeforeRewritten(u: Unicode, sql: Text, tokens: seq<Token>, finals: seq<Token>, i: int, j: int)
    requires Lexed(u, sql) == Success(tokens) && Source(u, tokens) && Edit(tokens, finals) && Neighbours(finals, i, j)
    requires finals[j] != tokens[j]
    ensures Joins(u, finals[i], finals[j]) <==> finals[i].text[0] == DOUBLE
  {
    assert EditAt(tokens, finals, i) && EditAt(tokens, finals, j);
    if finals[i] == tokens[i] {
      assert SourceAt(u, tokens, i);
      DoubleIsName(u, Concat(tokens), Start(tokens, i), ArrayBracket(u, tokens[..i]), tokens[i]);
      NoCommentBefore(u, sql, tokens, finals, i, j);
    }
    DoubleFuses(u, finals[i], finals[j].text);
  }
}
