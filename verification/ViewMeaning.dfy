// What becomes of the names of a view, told from the text in front of them and behind them
// (datamigrate/oscar_view.go).
module ViewMeaning {
  import opened Wrappers
  import opened Encoding
  import opened StringLiterals
  import opened ViewLexer
  import opened ViewPairs
  import opened ViewKeep
  import opened ViewNames
  import opened ViewRewriting
  import opened ViewSchemas
  import opened ViewParts
  import opened ViewClauses

  // Matching the source schema is exact, matching a listed schema follows the case folding and ignores
  // surrounding space; an empty source schema matches nothing.
  lemma StrippedExactly(c: Context, name: Text)
    ensures c.sourceSchema != [] && name == c.sourceSchema ==> Stripped(c, name)
    ensures c.stripSchemas == [] && (c.sourceSchema == [] || name != c.sourceSchema) ==> !Stripped(c, name)
    ensures forall s :: s in c.stripSchemas && c.u.foldEqual(c.u.trim(s), name) ==> Stripped(c, name)
    ensures Stripped(c, name) && name != c.sourceSchema ==>
              exists s :: s in c.stripSchemas && c.u.foldEqual(c.u.trim(s), name)
  {
    if s :| s in c.stripSchemas && c.u.foldEqual(c.u.trim(s), name) {
      var k :| 0 <= k < |c.stripSchemas| && c.stripSchemas[k] == s;
    }
  }

  // ---- Where a name stands ----

  // The name at h is an item of a FROM list or follows a word that only relations follow.
  ghost predicate RelationHere(c: Context, sig: seq<Token>, env: Env, h: int) {
    || WordAt(c.u, sig, h - 1) == JOIN || WordAt(c.u, sig, h - 1) == LATERAL || WordAt(c.u, sig, h - 1) == ONLY
    || (WordAt(c.u, sig, h - 1) == FROM && !InExpression(c.u, sig, h - 1))
    || (Is(sig, h - 1, COMMA) && InFromList(c.u, sig, env.pairs.expressionFrom, h + 1))
  }

  // A name with its columns, as in FROM t AS a(x, y).
  ghost predicate ColumnAlias(c: Context, sig: seq<Token>, env: Env, h: int) {
    && InFromList(c.u, sig, env.pairs.expressionFrom, h + 1)
    && (Is(sig, h - 1, CLOSE) || WordAt(c.u, sig, h - 1) == AS
        || (IdentAt(sig, h - 1) && !ReservedAt(c.u, sig, h - 1)))
  }

  // The parenthesis at o encloses the columns of a common table expression, as in WITH t(x) AS (...).
  ghost predicate TableColumns(c: Context, sig: seq<Token>, o: int) {
    exists k :: Closes(sig, o, k) && DefinitionBehind(c, sig, k)
  }

  ghost predicate DefinitionBehind(c: Context, sig: seq<Token>, k: int) {
    && WordAt(c.u, sig, k + 1) == AS
    && (WordAt(c.u, sig, k + 2) == NOT || WordAt(c.u, sig, k + 2) == MATERIALIZED || Is(sig, k + 2, OPEN))
  }

  lemma TableColumnsAt(c: Context, sig: seq<Token>, o: int, close: int)
    requires Closes(sig, o, close)
    ensures TableColumns(c, sig, o) <==> DefinitionBehind(c, sig, close)
  {
    if TableColumns(c, sig, o) {
      var k :| Closes(sig, o, k) && DefinitionBehind(c, sig, k);
      ClosesOnce(sig, o, k, close);
    }
  }

  ghost predicate CallHere(c: Context, sig: seq<Token>, env: Env, h: int, end: int) {
    Is(sig, end + 1, OPEN) && !ColumnAlias(c, sig, env, h) && !TableColumns(c, sig, end + 1)
  }

  // The text and the pairs that an environment belongs to.
  ghost predicate Given(c: Context, sig: seq<Token>, env: Env) {
    Fine(sig) && Balanced(sig) && Paired(c.u, sig, env.pairs)
  }

  lemma ClosesOnce(p: seq<Token>, o: int, a: int, b: int)
    requires Closes(p, o, a) && Closes(p, o, b) && a < |p| && b < |p|
    ensures a == b
  {
    assert Depth(p, a + 1) == Depth(p, a) - 1 && Depth(p, b + 1) == Depth(p, b) - 1;
  }

  lemma CallExactly(c: Context, sig: seq<Token>, env: Env, h: nat, end: int)
    requires Given(c, sig, env) && h < |sig| && IdentAt(sig, h) && end == ChainEnd(sig, h)
    ensures CallAt(c, sig, env, FromAt(c, sig, env, h), h, end) <==> CallHere(c, sig, env, h, end)
  {
    FlagHere(c, sig, env, h);
    CallFrom(c, sig, env, FromAt(c, sig, env, h), h, end);
  }

  lemma FlagHere(c: Context, sig: seq<Token>, env: Env, h: nat)
    requires Given(c, sig, env) && h < |sig|
    ensures FromAt(c, sig, env, h) <==> InFromList(c.u, sig, env.pairs.expressionFrom, h + 1)
  {
    FlagIsFromList(c.u, sig, env.pairs.expressionFrom, h + 1);
  }

  lemma CallFrom(c: Context, sig: seq<Token>, env: Env, from: bool, h: nat, end: int)
    requires Given(c, sig, env) && (from <==> InFromList(c.u, sig, env.pairs.expressionFrom, h + 1))
    ensures CallAt(c, sig, env, from, h, end) <==> CallHere(c, sig, env, h, end)
  {
    if Is(sig, end + 1, OPEN) {
      PairedParenthesis(c, sig, env, end + 1);
      CallAtOpen(c, sig, env, from, h, end, env.pairs.closeAt[end + 1]);
    }
  }

  lemma PairedParenthesis(c: Context, sig: seq<Token>, env: Env, o: int)
    requires Given(c, sig, env) && Is(sig, o, OPEN)
    ensures o in env.pairs.closeAt && Closes(sig, o, env.pairs.closeAt[o])
  {
    assert PairedAt(sig, env.pairs.closeAt, o);
  }

  lemma CallAtOpen(c: Context, sig: seq<Token>, env: Env, from: bool, h: nat, end: int, close: int)
    requires Is(sig, end + 1, OPEN) && end + 1 in env.pairs.closeAt && close == env.pairs.closeAt[end + 1]
    requires Closes(sig, end + 1, close) && (from <==> InFromList(c.u, sig, env.pairs.expressionFrom, h + 1))
    ensures CallAt(c, sig, env, from, h, end) <==> CallHere(c, sig, env, h, end)
  {
    TableColumnsAt(c, sig, end + 1, close);
  }

  lemma RelationExactly(c: Context, sig: seq<Token>, env: Env, h: nat)
    requires Given(c, sig, env) && h < |sig|
    ensures RelationAt(c, sig, env, FromAt(c, sig, env, h), h) <==> RelationHere(c, sig, env, h)
  {
    FlagHere(c, sig, env, h);
  }

  // What the text says about the name that begins at h: it is left alone if it is preserved, or is no call and
  // either a lone reserved word or the type of a literal; else a call keeps its function's spelling, and of any
  // other name the parts before the last two are schemas, or, of two, the first part if it qualifies a relation
  // or an asterisk.
  lemma TreatmentExactly(c: Context, sig: seq<Token>, env: Env, h: nat)
    requires Given(c, sig, env) && h < |sig| && IdentAt(sig, h) && !Is(sig, h - 1, DOT)
    ensures var first, end := First(c, sig, env, h), ChainEnd(sig, h);
            var plain := h !in env.preserve && !CallHere(c, sig, env, h, end);
            && (first.Call? <==> h !in env.preserve && CallHere(c, sig, env, h, end))
            && (first.Names? <==> plain && !LiteralAt(sig, end + 1) && !(end == h && ReservedAt(c.u, sig, h)))
            && (first.Names? && end == h ==> first.schemaEnd < h)
            && (first.Names? && end == h + 2 ==>
                  first.schemaEnd == if RelationHere(c, sig, env, h) || (Is(sig, h + 3, DOT) && Is(sig, h + 4, STAR))
                                     then h else h - 2)
            && (first.Names? && end >= h + 4 ==> first.schemaEnd == end - 4)
  {
    CallExactly(c, sig, env, h, ChainEnd(sig, h));
    RelationExactly(c, sig, env, h);
    TreatmentFrom(c, sig, env, FromAt(c, sig, env, h), h, ChainEnd(sig, h));
  }

  lemma TreatmentFrom(c: Context, sig: seq<Token>, env: Env, from: bool, h: nat, end: int)
    requires h < |sig| && IdentAt(sig, h) && !Is(sig, h - 1, DOT) && end == ChainEnd(sig, h)
    ensures var t := TreatmentAt(c, sig, env, from, h);
            && (t.Call? <==> h !in env.preserve && CallAt(c, sig, env, from, h, end))
            && (t.Names? <==> h !in env.preserve && !CallAt(c, sig, env, from, h, end)
                              && !LiteralAt(sig, end + 1) && !(end == h && ReservedAt(c.u, sig, h)))
            && (t.Names? ==> t.schemaEnd == SchemaEnd(c, sig, env, from, h, end))
  {}

  // ---- What it becomes ----

  // A name that is gone when it is to be stripped and keeps its spelling otherwise.
  ghost predicate AsSchema(c: Context, t: Token, now: Text) {
    now == if Stripped(c, t.name) then [] else if t.kind == QuotedName then Quote(t.name) else t.text
  }

  // A name that begins at h: no dot stands in front of it.
  ghost predicate BeginsName(sig: seq<Token>, h: int) { IdentAt(sig, h) && !Is(sig, h - 1, DOT) }

  lemma BeginsAtHead(sig: seq<Token>, h: nat)
    requires Fine(sig) && BeginsName(sig, h)
    ensures Head(sig, h) == h
  {
    if Is(sig, h, DOT) { NotBoth(sig, h); }
  }

  // A column, an alias or a table on its own.
  lemma OnePartName(c: Context, sig: seq<Token>, env: Env, h: nat)
    requires Given(c, sig, env) && BeginsName(sig, h) && ChainEnd(sig, h) == h
    requires h !in env.preserve && !CallHere(c, sig, env, h, h) && !LiteralAt(sig, h + 1)
    ensures Run(c, sig, env, |sig|)[h].text
            == if ReservedAt(c.u, sig, h) then sig[h].text else Quote(c.u.upper(sig[h].name))
  {
    BeginsAtHead(sig, h);
    TreatmentExactly(c, sig, env, h);
    FirstPartExact(c, sig, env, h, |sig|);
  }

  // Preserved names, and the type in front of a literal, are left alone.
  lemma LeftAlone(c: Context, sig: seq<Token>, env: Env, h: nat, k: nat)
    requires Given(c, sig, env) && BeginsName(sig, h) && k < |sig| && Head(sig, k) == h
    requires h in env.preserve || (LiteralAt(sig, ChainEnd(sig, h) + 1) && !CallHere(c, sig, env, h, ChainEnd(sig, h)))
    ensures Run(c, sig, env, |sig|)[k] == sig[k]
  {
    BeginsAtHead(sig, h);
    TreatmentExactly(c, sig, env, h);
    SkippedNameStays(c, sig, env, h, |sig|);
    assert UntouchedAt(sig, Run(c, sig, env, |sig|), h, k);
  }

  lemma DotText(c: Context, sig: seq<Token>, env: Env, h: nat)
    requires Given(c, sig, env) && BeginsName(sig, h) && ChainEnd(sig, h) > h && !First(c, sig, env, h).Skip?
    requires (First(c, sig, env, h).Names? ==> First(c, sig, env, h).schemaEnd >= h) && Stripped(c, sig[h].name)
    ensures Run(c, sig, env, |sig|)[h + 1].text == []
  {
    BeginsAtHead(sig, h);
    HeadOfNameDot(sig, h + 1);
    FirstVisit(c, sig, env, h, h + 1);
    BlankKept(c, sig, env, h + 1, h + 1, |sig|);
  }

  lemma DotKept(c: Context, sig: seq<Token>, env: Env, h: nat)
    requires Given(c, sig, env) && BeginsName(sig, h) && Is(sig, h + 1, DOT)
    requires !Stripped(c, sig[h].name)
    ensures Run(c, sig, env, |sig|)[h + 1].text == [DOT]
  {
    DotStays(c, sig, env, |sig|, h);
  }

  // A relation with its schema, or a column with its table: in a FROM list, behind JOIN, ONLY or LATERAL, and in
  // front of an asterisk the first part is a schema, which goes with its dot or keeps its spelling; elsewhere it
  // is a table, upper-cased and quoted like the second part.
  lemma TwoPartText(c: Context, sig: seq<Token>, env: Env, h: nat)
    requires Given(c, sig, env) && BeginsName(sig, h) && ChainEnd(sig, h) == h + 2
    requires h !in env.preserve && !Is(sig, h + 3, OPEN) && !LiteralAt(sig, h + 3)
    ensures var p := Run(c, sig, env, |sig|);
            var schema := RelationHere(c, sig, env, h) || (Is(sig, h + 3, DOT) && Is(sig, h + 4, STAR));
            && (if schema then AsSchema(c, sig[h], p[h].text) else p[h].text == Quote(c.u.upper(sig[h].name)))
            && (schema && Stripped(c, sig[h].name) ==> p[h + 1].text == [])
            && (!Stripped(c, sig[h].name) ==> p[h + 1].text == [DOT])
            && p[h + 2].text == Quote(c.u.upper(sig[h + 2].name))
  {
    BeginsAtHead(sig, h);
    TreatmentExactly(c, sig, env, h);
    TwoPartName(c, sig, env, h, |sig|);
    if Stripped(c, sig[h].name) {
      if First(c, sig, env, h).schemaEnd == h { DotText(c, sig, env, h); }
    } else {
      DotKept(c, sig, env, h);
    }
  }

  // Schema, table and column.
  lemma ThreePartText(c: Context, sig: seq<Token>, env: Env, h: nat)
    requires Given(c, sig, env) && BeginsName(sig, h) && ChainEnd(sig, h) == h + 4
    requires h !in env.preserve && !Is(sig, h + 5, OPEN) && !Is(sig, h + 5, DOT) && !LiteralAt(sig, h + 5)
    ensures var p := Run(c, sig, env, |sig|);
            && AsSchema(c, sig[h], p[h].text) && p[h + 1].text == (if Stripped(c, sig[h].name) then [] else [DOT])
            && p[h + 2].text == Quote(c.u.upper(sig[h + 2].name))
            && p[h + 4].text == Quote(c.u.upper(sig[h + 4].name))
  {
    BeginsAtHead(sig, h);
    TreatmentExactly(c, sig, env, h);
    ThreePartName(c, sig, env, h, |sig|);
    if Stripped(c, sig[h].name) { DotText(c, sig, env, h); } else { DotKept(c, sig, env, h); }
  }

  // A function keeps the spelling of its own name, whatever its schema is; a schema in front of it is stripped
  // or kept.
  lemma CallText(c: Context, sig: seq<Token>, env: Env, h: nat)
    requires Given(c, sig, env) && BeginsName(sig, h) && h !in env.preserve
    requires CallHere(c, sig, env, h, ChainEnd(sig, h))
    ensures var p, end := Run(c, sig, env, |sig|), ChainEnd(sig, h);
            && p[end].text == (if sig[end].kind == QuotedName then Quote(sig[end].name) else sig[end].text)
            && (end > h ==> AsSchema(c, sig[h], p[h].text)
                            && p[h + 1].text == if Stripped(c, sig[h].name) then [] else [DOT])
  {
    BeginsAtHead(sig, h);
    TreatmentExactly(c, sig, env, h);
    FunctionKept(c, sig, env, h, |sig|);
    if ChainEnd(sig, h) > h {
      FirstPartExact(c, sig, env, h, |sig|);
      if Stripped(c, sig[h].name) { DotText(c, sig, env, h); } else { DotKept(c, sig, env, h); }
    }
  }
}
