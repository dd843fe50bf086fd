// What becomes of the usual names of a view: relations, columns and functions (datamigrate/oscar_view.go).
module ViewParts {
  import opened Wrappers
  import opened Encoding
  import opened StringLiterals
  import opened ViewLexer
  import opened ViewPairs
  import opened ViewNames
  import opened ViewRewriting
  import opened ViewSchemas

  ghost predicate UpperQuoted(c: Context, sig: seq<Token>, p: seq<Token>, k: int) {
    0 <= k < |sig| == |p| && p[k].text == Quote(c.u.upper(sig[k].name))
  }

  // A schema before a relation or before ".*" is stripped or kept as it is spelled; a table before a
  // column is a name like the column.
  lemma TwoPartName(c: Context, sig: seq<Token>, env: Env, h: nat, n: nat)
    requires Fine(sig) && h < n <= |sig| && IdentAt(sig, h) && Head(sig, h) == h && ChainEnd(sig, h) == h + 2
    requires First(c, sig, env, h).Names? && !Is(sig, h + 3, OPEN)
    ensures var p := Run(c, sig, env, n);
            var schema := RelationAt(c, sig, env, FromAt(c, sig, env, h), h)
              || (Is(sig, h + 3, DOT) && Is(sig, h + 4, STAR));
            && (if schema then p[h].text == SchemaText(c, sig[h]) else UpperQuoted(c, sig, p, h))
            && UpperQuoted(c, sig, p, h + 2)
  {
    FirstPartExact(c, sig, env, h, n);
    LastPartQuoted(c, sig, env, h, n);
  }

  lemma MiddleOnce(c: Context, sig: seq<Token>, p: seq<Token>, env: Env, from: bool, h: nat, i: nat)
    requires Fine(sig) && Tracks(c, sig, p) && h < i < |sig| && IdentAt(sig, h) && Head(sig, h) == h
             && ChainEnd(sig, h) == h + 4
    requires !Is(sig, h + 5, OPEN) && !Is(sig, h + 5, DOT) && UpperQuoted(c, sig, p, h + 2)
    ensures UpperQuoted(c, sig, Visit(c, p, env, from, i), h + 2)
  {
    PartAtOffset(sig, h, h + 2);
    if Visit(c, p, env, from, i)[h + 2] != p[h + 2] {
      BeginsBehind(c, sig, p, env, from, h, i, h + 2);
      PartEven(sig, h, i);
      MiddleVisit(c, sig, p, env, from, h);
    }
  }

  // The middle part is visited on its own as the table of a column.
  lemma MiddleVisit(c: Context, sig: seq<Token>, p: seq<Token>, env: Env, from: bool, h: nat)
    requires Fine(sig) && Tracks(c, sig, p) && IdentAt(sig, h) && Head(sig, h) == h && ChainEnd(sig, h) == h + 4
    requires !Is(sig, h + 5, OPEN) && !Is(sig, h + 5, DOT) && Part(sig, h, h + 2)
    requires IdentAt(p, h + 2) && !TreatmentAt(c, p, env, from, h + 2).Skip?
    ensures UpperQuoted(c, sig, Visit(c, p, env, from, h + 2), h + 2)
  {
    var i := h + 2;
    EndBelow(c, sig, p, h, i);
    NothingCalled(c, sig, p, h);
    PartAtOffset(sig, h, h);
    NoRelation(c, sig, p, env, from, h + 1);
    assert Outcome(c, sig, p, i);
    Visited(c, p, env, from, i, i);
  }

  lemma NothingCalled(c: Context, sig: seq<Token>, p: seq<Token>, h: nat)
    requires Fine(sig) && Tracks(c, sig, p) && IdentAt(sig, h) && Head(sig, h) == h && ChainEnd(sig, h) == h + 4
    requires !Is(sig, h + 5, OPEN) && !Is(sig, h + 5, DOT) && Part(sig, h, h + 2)
    requires IdentAt(p, h + 2) && ChainEnd(p, h + 2) <= h + 4
    ensures var end := ChainEnd(p, h + 2); !Is(p, end + 1, OPEN) && (end == h + 4 ==> !Is(p, end + 1, DOT))
    ensures var end := ChainEnd(p, h + 2); end == h + 2 || end == h + 4
  {
    PartAtOffset(sig, h, h + 2);
    SymbolsKept(c, sig, p, ChainEnd(p, h + 2) + 1);
    assert FineAt(sig, h + 3);
  }

  // Behind a dot nothing is in relation position.
  lemma NoRelation(c: Context, sig: seq<Token>, p: seq<Token>, env: Env, from: bool, k: int)
    requires Fine(sig) && Tracks(c, sig, p) && Is(sig, k, DOT)
    ensures !RelationAt(c, p, env, from, k + 1)
  {
    NotBoth(sig, k);
    SymbolsKept(c, sig, p, k);
    assert Outcome(c, sig, p, k);
  }

  lemma MiddleRun(c: Context, sig: seq<Token>, env: Env, h: nat, n: nat)
    requires Fine(sig) && h < n < |sig| && IdentAt(sig, h) && Head(sig, h) == h && ChainEnd(sig, h) == h + 4
    requires !Is(sig, h + 5, OPEN) && !Is(sig, h + 5, DOT) && UpperQuoted(c, sig, Run(c, sig, env, n), h + 2)
    ensures UpperQuoted(c, sig, Run(c, sig, env, n + 1), h + 2)
  {
    RunTracks(c, sig, env, n);
    RunStep(c, sig, env, n);
    MiddleOnce(c, sig, Run(c, sig, env, n), env, FromAt(c, sig, env, n), h, n);
  }

  lemma {:induction false} MiddleKept(c: Context, sig: seq<Token>, env: Env, h: nat, n: nat)
    requires Fine(sig) && h < n <= |sig| && IdentAt(sig, h) && Head(sig, h) == h && ChainEnd(sig, h) == h + 4
    requires !Is(sig, h + 5, OPEN) && !Is(sig, h + 5, DOT) && UpperQuoted(c, sig, Run(c, sig, env, h + 1), h + 2)
    ensures UpperQuoted(c, sig, Run(c, sig, env, n), h + 2)
  {
    if n > h + 1 {
      var before := n - 1;
      MiddleKept(c, sig, env, h, before);
      MiddleRun(c, sig, env, h, before);
      assert before + 1 == n;
    }
  }

  // Schema, table and column: only the first is a schema, although the table may be visited again.
  lemma ThreePartName(c: Context, sig: seq<Token>, env: Env, h: nat, n: nat)
    requires Fine(sig) && h < n <= |sig| && IdentAt(sig, h) && Head(sig, h) == h && ChainEnd(sig, h) == h + 4
    requires First(c, sig, env, h).Names? && !Is(sig, h + 5, OPEN) && !Is(sig, h + 5, DOT)
    ensures var p := Run(c, sig, env, n);
            p[h].text == SchemaText(c, sig[h]) && UpperQuoted(c, sig, p, h + 2) && UpperQuoted(c, sig, p, h + 4)
  {
    FirstPartExact(c, sig, env, h, n);
    LastPartQuoted(c, sig, env, h, n);
    PartAtOffset(sig, h, h + 2);
    FirstVisit(c, sig, env, h, h + 2);
    MiddleKept(c, sig, env, h, n);
  }

  function FunctionText(t: Token): Text { if t.kind == QuotedName then Quote(t.name) else t.text }

  lemma FunctionOnce(c: Context, sig: seq<Token>, p: seq<Token>, env: Env, from: bool, h: nat, i: nat, before: bool)
    requires Fine(sig) && Tracks(c, sig, p) && h < i < |sig| && IdentAt(sig, h) && Head(sig, h) == h
    requires CallAt(c, sig, env, before, h, ChainEnd(sig, h))
             && p[ChainEnd(sig, h)].text == FunctionText(sig[ChainEnd(sig, h)])
    ensures Visit(c, p, env, from, i)[ChainEnd(sig, h)].text == FunctionText(sig[ChainEnd(sig, h)])
  {
    var e := ChainEnd(sig, h);
    EndInName(sig, h);
    assert Outcome(c, sig, p, e);
    if Visit(c, p, env, from, i)[e] != p[e] {
      BeginsBehind(c, sig, p, env, from, h, i, e);
      EndBelow(c, sig, p, h, i);
      StillCalled(c, sig, p, env, from, h, i, e, before);
      Visited(c, p, env, from, i, e);
    }
  }

  lemma BlankSaysNothing(c: Context, sig: seq<Token>, p: seq<Token>, k: int)
    requires Fine(sig) && Tracks(c, sig, p) && Blank(sig, p, k)
    ensures WordAt(c.u, p, k) == Other && !Is(p, k, CLOSE) && !IdentAt(p, k)
  {
    assert Outcome(c, sig, p, k) && FineAt(sig, k);
    NotBoth(sig, k);
  }

  lemma StillCallAt(c: Context, sig: seq<Token>, p: seq<Token>, env: Env, from: bool, h: nat, i: nat, e: int,
      before: bool)
    requires Fine(sig) && Tracks(c, sig, p) && Blank(sig, p, i - 1) && CallAt(c, sig, env, before, h, e)
    ensures CallAt(c, p, env, from, i, e)
  {
    var close := if e + 1 in env.pairs.closeAt then env.pairs.closeAt[e + 1] else 0;
    BlankSaysNothing(c, sig, p, i - 1);
    SameEverywhere(c, sig, p);
    assert SameAt(c, sig, p, e + 1) && SameAt(c, sig, p, close + 1) && SameAt(c, sig, p, close + 2);
  }

  // A later part of a function's name is visited as the same function's name.
  lemma StillCalled(c: Context, sig: seq<Token>, p: seq<Token>, env: Env, from: bool, h: nat, i: nat, e: int,
      before: bool)
    requires Fine(sig) && Tracks(c, sig, p) && IdentAt(p, i) && ChainEnd(p, i) == e && Blank(sig, p, i - 1)
    requires CallAt(c, sig, env, before, h, e) && !TreatmentAt(c, p, env, from, i).Skip?
    ensures TreatmentAt(c, p, env, from, i).Call?
  {
    StillCallAt(c, sig, p, env, from, h, i, e, before);
  }

  lemma FunctionNext(c: Context, sig: seq<Token>, env: Env, h: nat, n: nat, before: bool)
    requires Fine(sig) && h < n < |sig| && IdentAt(sig, h) && Head(sig, h) == h
             && CallAt(c, sig, env, before, h, ChainEnd(sig, h))
    requires Run(c, sig, env, n)[ChainEnd(sig, h)].text == FunctionText(sig[ChainEnd(sig, h)])
    ensures Run(c, sig, env, n + 1)[ChainEnd(sig, h)].text == FunctionText(sig[ChainEnd(sig, h)])
  {
    RunTracks(c, sig, env, n);
    RunStep(c, sig, env, n);
    FunctionOnce(c, sig, Run(c, sig, env, n), env, FromAt(c, sig, env, n), h, n, before);
  }

  lemma {:induction false} FunctionLater(c: Context, sig: seq<Token>, env: Env, h: nat, m: nat, n: nat, before: bool)
    requires Fine(sig) && h < m <= n <= |sig| && IdentAt(sig, h) && Head(sig, h) == h
             && CallAt(c, sig, env, before, h, ChainEnd(sig, h))
    requires Run(c, sig, env, m)[ChainEnd(sig, h)].text == FunctionText(sig[ChainEnd(sig, h)])
    ensures Run(c, sig, env, n)[ChainEnd(sig, h)].text == Run(c, sig, env, m)[ChainEnd(sig, h)].text
    decreases n
  {
    if m < n {
      FunctionLater(c, sig, env, h, m, n - 1, before);
      FunctionNext(c, sig, env, h, n - 1, before);
    }
  }

  // The name of a function keeps its spelling, up to the quotes around a quoted one.
  lemma FunctionKept(c: Context, sig: seq<Token>, env: Env, h: nat, n: nat)
    requires Fine(sig) && h < n <= |sig| && IdentAt(sig, h) && Head(sig, h) == h && First(c, sig, env, h).Call?
    ensures Run(c, sig, env, n)[ChainEnd(sig, h)].text == FunctionText(sig[ChainEnd(sig, h)])
  {
    EndInName(sig, h);
    FirstVisit(c, sig, env, h, ChainEnd(sig, h));
    FunctionLater(c, sig, env, h, h + 1, n, FromAt(c, sig, env, h));
  }
}
