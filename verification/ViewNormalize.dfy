// The whole of normalizeOscarViewForSource (datamigrate/oscar_view.go).
module ViewNormalize {
  import opened Wrappers
  import opened Encoding
  import opened StringLiterals
  import opened ViewLexer
  import opened ViewPairs
  import opened ViewKeep
  import opened ViewNames
  import opened ViewRewriting

  datatype ViewError = Lexical(error: LexError) | Unbalanced

  function Significant(tokens: seq<Token>): seq<Token> {
    if tokens == [] then []
    else Significant(tokens[..|tokens| - 1])
         + (if tokens[|tokens| - 1].kind == Trivia then [] else [tokens[|tokens| - 1]])
  }

  lemma SignificantSnoc(tokens: seq<Token>, i: nat)
    requires i < |tokens|
    ensures Significant(tokens[..i + 1])
            == Significant(tokens[..i]) + (if tokens[i].kind == Trivia then [] else [tokens[i]])
  {
    assert tokens[..i + 1][..i] == tokens[..i];
  }

  lemma {:induction false} SignificantAreFine(tokens: seq<Token>)
    requires forall t :: t in tokens ==> WellFormed(t)
    ensures forall t :: t in Significant(tokens) ==> WellFormed(t) && t.kind != Trivia
  {
    if tokens != [] { SignificantAreFine(tokens[..|tokens| - 1]); }
  }

  // The text that results when the significant tokens are replaced one by one and trivia stay.
  function Woven(tokens: seq<Token>, parts: seq<Token>): Text
    requires |parts| == |Significant(tokens)|
  {
    if tokens == [] then []
    else
      var n := |tokens| - 1;
      if tokens[n].kind == Trivia then Woven(tokens[..n], parts) + tokens[n].text
      else Woven(tokens[..n], parts[..|parts| - 1]) + parts[|parts| - 1].text
  }

  // Nothing but the significant tokens decides what changes: put back as they were, they give the input.
  lemma {:induction false} WovenItself(tokens: seq<Token>)
    ensures Woven(tokens, Significant(tokens)) == Concat(tokens)
  {
    if tokens != [] {
      var n := |tokens| - 1;
      WovenItself(tokens[..n]);
      assert Significant(tokens[..n]) + [] == Significant(tokens[..n]);
      assert Significant(tokens)[..|Significant(tokens[..n])|] == Significant(tokens[..n]);
    }
  }

  method Weave(tokens: seq<Token>, parts: seq<Token>) returns (out: Text)
    requires |parts| == |Significant(tokens)|
    ensures out == Woven(tokens, parts)
  {
    out := [];
    var k := 0;
    SignificantWhole(tokens);
    for i := 0 to |tokens|
      invariant k == |Significant(tokens[..i])| <= |parts| && out == Woven(tokens[..i], parts[..k])
    {
      SignificantSnoc(tokens, i);
      SignificantGrows(tokens, i + 1);
      assert tokens[..i + 1][..i] == tokens[..i];
      if tokens[i].kind == Trivia {
        out := out + tokens[i].text;
      } else {
        assert parts[..k + 1][..k] == parts[..k];
        out := out + parts[k].text;
        k := k + 1;
      }
    }
    assert tokens[..|tokens|] == tokens && parts[..k] == parts;
  }

  lemma SignificantWhole(tokens: seq<Token>)
    ensures tokens[..|tokens|] == tokens
  {}

  lemma {:induction false} SignificantGrows(tokens: seq<Token>, i: nat)
    requires i <= |tokens|
    ensures |Significant(tokens[..i])| <= |Significant(tokens)|
    decreases |tokens| - i
  {
    if i < |tokens| {
      SignificantSnoc(tokens, i);
      SignificantGrows(tokens, i + 1);
    } else {
      assert tokens[..i] == tokens;
    }
  }

  lemma ParenthesisSkipped(c: Context, sig: seq<Token>, env: Env, i: nat)
    requires Fine(sig) && i < |sig| && (Is(sig, i, OPEN) || Is(sig, i, CLOSE))
    ensures Run(c, sig, env, i + 1) == Run(c, sig, env, i)
  {
    RunTracks(c, sig, env, i);
    RunStep(c, sig, env, i);
    assert FineAt(sig, i) && Outcome(c, sig, Run(c, sig, env, i), i);
  }

  lemma SameSteering(c: Context, sig: seq<Token>, env: Env, i: nat)
    requires Fine(sig) && i < |sig|
    ensures var p := Run(c, sig, env, i);
            Is(p, i, OPEN) == Is(sig, i, OPEN) && Is(p, i, CLOSE) == Is(sig, i, CLOSE)
              && WordAt(c.u, p, i) == WordAt(c.u, sig, i)
  {
    RunTracks(c, sig, env, i);
    SymbolsKept(c, sig, Run(c, sig, env, i), i);
    assert Outcome(c, sig, Run(c, sig, env, i), i);
  }

  lemma StackNonEmpty(u: Unicode, sig: seq<Token>, expressionFrom: set<int>, i: nat)
    requires Balanced(sig) && i < |sig| && Is(sig, i, CLOSE)
    ensures FlagsAt(u, sig, expressionFrom, i).outer != []
  {
    FlagsFollowDepth(u, sig, expressionFrom, i);
    assert Depth(sig, i + 1) >= 0;
  }

  // The last loop: names are treated in place while a stack remembers the FROM flag.
  method Rewrite(c: Context, sig: seq<Token>, env: Env) returns (p: seq<Token>)
    requires Fine(sig) && Balanced(sig)
    ensures |p| == |sig| && p == Run(c, sig, env, |sig|)
  {
    p := sig;
    var from, fromStack: seq<bool> := false, [];
    for i := 0 to |sig|
      invariant |p| == |sig| && p == Run(c, sig, env, i)
      invariant Flags(from, fromStack) == FlagsAt(c.u, sig, env.pairs.expressionFrom, i)
    {
      SameSteering(c, sig, env, i);
      if Is(p, i, OPEN) {
        ParenthesisSkipped(c, sig, env, i);
        fromStack := fromStack + [from];
        from := false;
        continue;
      }
      if Is(p, i, CLOSE) {
        ParenthesisSkipped(c, sig, env, i);
        StackNonEmpty(c.u, sig, env.pairs.expressionFrom, i);
        from := fromStack[|fromStack| - 1];
        fromStack := fromStack[..|fromStack| - 1];
        continue;
      }
      from := FlagAfter(WordAt(c.u, p, i), i in env.pairs.expressionFrom, from);
      RunStep(c, sig, env, i);
      p := Treat(c, p, env, from, i);
    }
  }

  // What a successful normalization of these tokens returns.
  ghost predicate Normalizes(c: Context, tokens: seq<Token>, env: Env, out: Text) {
    var sig := Significant(tokens);
    && Fine(sig) && Paired(c.u, sig, env.pairs)
    && Preserved(c.u, sig, env.pairs.closeAt, |sig|, env.preserve)
    && out == Woven(tokens, Run(c, sig, env, |sig|))
  }

  // Fails exactly on text that cannot be lexed or has unbalanced parentheses.
  method NormalizeOscarView(c: Context, sql: Text) returns (r: Result<Text, ViewError>)
    ensures match Lexed(c.u, sql)
            case Failure(e) => r == Failure(Lexical(e))
            case Success(tokens) =>
              && Concat(tokens) == sql
              && if Balanced(Significant(tokens)) then r.Success? && exists env :: Normalizes(c, tokens, env, r.value)
                 else r == Failure(Unbalanced)
  {
    var lexed := LexOscarView(c.u, sql);
    if lexed.Failure? { return Failure(Lexical(lexed.error)); }
    var tokens := lexed.value;
    var sig := [];
    for i := 0 to |tokens|
      invariant sig == Significant(tokens[..i])
    {
      SignificantSnoc(tokens, i);
      if tokens[i].kind != Trivia { sig := sig + [tokens[i]]; }
    }
    assert tokens[..|tokens|] == tokens;
    var pairs := Pair(c.u, sig);
    if pairs.None? { return Failure(Unbalanced); }
    TokensWellFormed(c.u, sql, 0, []);
    SignificantAreFine(tokens);
    WellFormedIsFine(sig);
    var preserve := Preserve(c.u, sig, pairs.value);
    var env := Env(pairs.value, preserve);
    var parts := Rewrite(c, sig, env);
    var out := Weave(tokens, parts);
    assert Normalizes(c, tokens, env, out);
    r := Success(out);
  }
}
