// Rewriting the names of a view: relation and column names are upper-cased and quoted, schemas are
// stripped (the last loop of normalizeOscarViewForSource in datamigrate/oscar_view.go).
module ViewNames {
  import opened Wrappers
  import opened Encoding
  import opened StringLiterals
  import opened ViewLexer
  import opened ViewPairs
  import opened ViewKeep

  datatype Context = Context(u: Unicode, stripSchemas: seq<Text>, sourceSchema: Text)

  // A schema is stripped when it is exactly the source schema or matches a listed one in any case.
  predicate Stripped(c: Context, name: Text) {
    || (c.sourceSchema != [] && name == c.sourceSchema)
    || exists k :: 0 <= k < |c.stripSchemas| && c.u.foldEqual(c.u.trim(c.stripSchemas[k]), name)
  }

  datatype Env = Env(pairs: Pairs, preserve: set<int>)

  // What happens to the dotted name that begins at a position: nothing, the treatment of a function
  // name, or quoting of every part behind schemaEnd; the parts up to schemaEnd are schemas.
  datatype Treatment = Skip | Call | Names(schemaEnd: int)

  function ChainEnd(p: seq<Token>, i: int): (e: int)
    requires IdentAt(p, i)
    ensures i <= e < |p| && (e - i) % 2 == 0 && IdentAt(p, e)
    ensures !(Is(p, e + 1, DOT) && IdentAt(p, e + 2))
    decreases |p| - i
  {
    if Is(p, i + 1, DOT) && IdentAt(p, i + 2) then ChainEnd(p, i + 2) else i
  }

  predicate CallAt(c: Context, p: seq<Token>, env: Env, from: bool, i: int, end: int) {
    var close := if end + 1 in env.pairs.closeAt then env.pairs.closeAt[end + 1] else 0;
    && Is(p, end + 1, OPEN)
    && !(from && (WordAt(c.u, p, i - 1) == AS || Is(p, i - 1, CLOSE)
       || (IdentAt(p, i - 1) && !ReservedAt(c.u, p, i - 1))))
    && !(WordAt(c.u, p, close + 1) == AS
         && (Is(p, close + 2, OPEN) || WordAt(c.u, p, close + 2) == MATERIALIZED || WordAt(c.u, p, close + 2) == NOT))
  }

  predicate RelationAt(c: Context, p: seq<Token>, env: Env, from: bool, i: int) {
    || (WordAt(c.u, p, i - 1) == FROM && i - 1 !in env.pairs.expressionFrom)
    || WordAt(c.u, p, i - 1) == JOIN || WordAt(c.u, p, i - 1) == ONLY || WordAt(c.u, p, i - 1) == LATERAL
    || (Is(p, i - 1, COMMA) && from)
  }

  function SchemaEnd(c: Context, p: seq<Token>, env: Env, from: bool, i: int, end: int): int {
    if end - i >= 4 then end - 4
    else if end > i && (RelationAt(c, p, env, from, i) || (Is(p, end + 1, DOT) && Is(p, end + 2, STAR))) then end - 2
    else i - 2
  }

  // A reserved word that stands alone.
  predicate KeywordAt(c: Context, p: seq<Token>, i: int, end: int) {
    end == i && ReservedAt(c.u, p, i)
  }

  function Choose(call: bool, keyword: bool, literal: bool, schemaEnd: int): Treatment {
    if call then Call else if keyword || literal then Skip else Names(schemaEnd)
  }

  function TreatmentAt(c: Context, p: seq<Token>, env: Env, from: bool, i: int): Treatment {
    if !IdentAt(p, i) || i in env.preserve || Is(p, i - 1, DOT) then Skip
    else
      var end := ChainEnd(p, i);
      Choose(CallAt(c, p, env, from, i, end), KeywordAt(c, p, i, end), LiteralAt(p, end + 1),
        SchemaEnd(c, p, env, from, i, end))
  }

  function SchemaText(c: Context, t: Token): Text {
    if Stripped(c, t.name) then [] else if t.kind == QuotedName then Quote(t.name) else t.text
  }

  // The text of position k after the name from i to end has been treated.
  function TextAfter(c: Context, p: seq<Token>, treatment: Treatment, i: int, end: int, k: int): Text
    requires 0 <= k < |p| && !treatment.Skip?
  {
    var schemaEnd := if treatment.Call? then end - 2 else treatment.schemaEnd;
    if i <= k <= end && (k - i) % 2 == 0 then
      if k <= schemaEnd then SchemaText(c, p[k])
      else if treatment.Names? then Quote(c.u.upper(p[k].name))
      else if p[k].kind == QuotedName then Quote(p[k].name)
      else p[k].text
    else if 0 <= i < k <= schemaEnd + 1 && (k - i) % 2 == 1 && Stripped(c, p[k - 1].name) then []
    else p[k].text
  }

  function Treated(c: Context, p: seq<Token>, treatment: Treatment, i: int, end: int, n: nat): (q: seq<Token>)
    requires n <= |p| && !treatment.Skip?
    ensures |q| == n
  {
    if n == 0 then []
    else Treated(c, p, treatment, i, end, n - 1) + [p[n - 1].(text := TextAfter(c, p, treatment, i, end, n - 1))]
  }

  lemma {:induction false} TreatedAt(c: Context, p: seq<Token>, treatment: Treatment, i: int, end: int, n: nat, k: nat)
    requires k < n <= |p| && !treatment.Skip?
    ensures Treated(c, p, treatment, i, end, n)[k] == p[k].(text := TextAfter(c, p, treatment, i, end, k))
  {
    if k < n - 1 { TreatedAt(c, p, treatment, i, end, n - 1, k); }
  }

  function Visit(c: Context, p: seq<Token>, env: Env, from: bool, i: int): (q: seq<Token>)
    ensures |q| == |p|
  {
    var treatment := TreatmentAt(c, p, env, from, i);
    if treatment.Skip? then p else Treated(c, p, treatment, i, ChainEnd(p, i), |p|)
  }

  // The tokens after the names that begin before i have been treated.
  function Run(c: Context, sig: seq<Token>, env: Env, i: nat): (q: seq<Token>)
    requires i <= |sig|
    ensures |q| == |sig|
  {
    if i == 0 then sig
    else Visit(c, Run(c, sig, env, i - 1), env, FlagsAt(c.u, sig, env.pairs.expressionFrom, i).from, i - 1)
  }

  // ---- What a token may become ----

  predicate Symbol(text: Text) {
    text == [OPEN] || text == [CLOSE] || text == [COMMA] || text == [STAR] || text == [DOT]
  }

  // Names and literals never look like the symbols that steer the rewriting.
  ghost predicate FineAt(sig: seq<Token>, k: int) {
    0 <= k < |sig| ==> sig[k].kind != Trivia && (Symbol(sig[k].text) ==> sig[k].kind == Punctuation)
  }

  ghost predicate Fine(sig: seq<Token>) { forall k :: FineAt(sig, k) }

  lemma WellFormedIsFine(sig: seq<Token>)
    requires forall t :: t in sig ==> WellFormed(t) && t.kind != Trivia
    ensures Fine(sig)
  {
    forall k ensures FineAt(sig, k) {
      if 0 <= k < |sig| { assert sig[k] in sig; }
    }
  }

  ghost predicate NameBecomes(c: Context, t: Token, now: Text) {
    now == t.text || now == Quote(c.u.upper(t.name)) || (t.kind == QuotedName && now == Quote(t.name))
  }

  predicate Blank(sig: seq<Token>, p: seq<Token>, k: int) { Is(sig, k, DOT) && k < |p| && p[k].text == [] }

  ghost predicate Outcome(c: Context, sig: seq<Token>, p: seq<Token>, k: int)
    requires |sig| == |p|
  {
    0 <= k < |sig| ==>
      && p[k].kind == sig[k].kind && p[k].name == sig[k].name
      && if IdentAt(sig, k) then
           NameBecomes(c, sig[k], p[k].text) || (p[k].text == [] && Stripped(c, sig[k].name) && Blank(sig, p, k + 1))
         else
           p[k].text == sig[k].text || (Blank(sig, p, k) && IdentAt(sig, k - 1) && Stripped(c, sig[k - 1].name))
  }

  ghost predicate Tracks(c: Context, sig: seq<Token>, p: seq<Token>) {
    |p| == |sig| && forall k :: Outcome(c, sig, p, k)
  }

  // The steering symbols stay where they are, except for blanked dots.
  lemma SymbolsKept(c: Context, sig: seq<Token>, p: seq<Token>, k: int)
    requires Fine(sig) && Tracks(c, sig, p)
    ensures Is(p, k, OPEN) <==> Is(sig, k, OPEN)
    ensures Is(p, k, CLOSE) <==> Is(sig, k, CLOSE)
    ensures Is(p, k, COMMA) <==> Is(sig, k, COMMA)
    ensures Is(p, k, STAR) <==> Is(sig, k, STAR)
    ensures Is(p, k, DOT) ==> Is(sig, k, DOT)
  {
    if 0 <= k < |sig| { assert Outcome(c, sig, p, k) && FineAt(sig, k); }
  }

  // ---- Treating one name in place ----

  lemma {:induction false} ChainParts(p: seq<Token>, i: int, k: int)
    requires IdentAt(p, i) && i <= k <= ChainEnd(p, i) && (k - i) % 2 == 0
    ensures IdentAt(p, k) && (k < ChainEnd(p, i) ==> Is(p, k + 1, DOT) && k + 2 <= ChainEnd(p, i))
    decreases k - i
  {
    if Is(p, i + 1, DOT) && IdentAt(p, i + 2) {
      ChainNext(p, i);
      if k > i { ChainParts(p, i + 2, k); }
    }
  }

  lemma ChainNext(p: seq<Token>, i: int)
    requires IdentAt(p, i) && Is(p, i + 1, DOT) && IdentAt(p, i + 2)
    ensures ChainEnd(p, i) == ChainEnd(p, i + 2) >= i + 2
  {}

  method RewriteSchema(c: Context, p: seq<Token>, j: nat) returns (q: seq<Token>)
    requires j + 1 < |p|
    ensures |q| == |p| && q[j] == p[j].(text := SchemaText(c, p[j]))
    ensures q[j + 1] == if Stripped(c, p[j].name) then p[j + 1].(text := []) else p[j + 1]
    ensures forall k :: 0 <= k < |p| && k != j && k != j + 1 ==> q[k] == p[k]
  {
    q := p;
    if Stripped(c, p[j].name) {
      q := q[j := q[j].(text := [])];
      q := q[j + 1 := q[j + 1].(text := [])];
    } else if p[j].kind == QuotedName {
      q := q[j := q[j].(text := Quote(p[j].name))];
    }
  }

  ghost predicate TreatedBelow(c: Context, p: seq<Token>, treatment: Treatment, i: int, end: int, q: seq<Token>, j: int)
    requires !treatment.Skip?
  {
    && |q| == |p|
    && forall k :: 0 <= k < |p| ==> q[k] == if k < j then p[k].(text := TextAfter(c, p, treatment, i, end, k)) else p[k]
  }

  method FindEnd(p: seq<Token>, i: int) returns (end: int)
    requires IdentAt(p, i)
    ensures end == ChainEnd(p, i) && i <= end < |p| && (end - i) % 2 == 0
  {
    end := i;
    while Is(p, end + 1, DOT) && IdentAt(p, end + 2)
      invariant i <= end < |p| && IdentAt(p, end) && ChainEnd(p, i) == ChainEnd(p, end)
      decreases |p| - end
    {
      end := end + 2;
    }
  }

  lemma TreatedSchema(c: Context, p: seq<Token>, treatment: Treatment, i: nat, end: int, q: seq<Token>, j: int,
      q': seq<Token>)
    requires !treatment.Skip? && TreatedBelow(c, p, treatment, i, end, q, j)
    requires i <= j <= (if treatment.Call? then end - 2 else treatment.schemaEnd) <= end - 2 && (j - i) % 2 == 0
             && j + 1 < |p|
    requires |q'| == |p| && q'[j] == q[j].(text := SchemaText(c, q[j]))
    requires q'[j + 1] == if Stripped(c, q[j].name) then q[j + 1].(text := []) else q[j + 1]
    requires forall k :: 0 <= k < |p| && k != j && k != j + 1 ==> q'[k] == q[k]
    ensures TreatedBelow(c, p, treatment, i, end, q', j + 2)
  {
    assert TextAfter(c, p, treatment, i, end, j) == SchemaText(c, p[j]);
    assert TextAfter(c, p, treatment, i, end, j + 1) == if Stripped(c, p[j].name) then [] else p[j + 1].text;
  }

  lemma TreatedNothing(c: Context, p: seq<Token>, treatment: Treatment, i: nat, end: int)
    requires !treatment.Skip? && (treatment.Names? ==> (treatment.schemaEnd - i) % 2 == 0)
    ensures TreatedBelow(c, p, treatment, i, end, p, i)
  {}

  lemma TreatedRest(c: Context, p: seq<Token>, treatment: Treatment, i: nat, end: int, q: seq<Token>)
    requires !treatment.Skip? && (treatment.Call? || treatment.schemaEnd <= end - 2)
    requires TreatedBelow(c, p, treatment, i, end, q, end + 1)
    ensures TreatedBelow(c, p, treatment, i, end, q, |p|)
  {}

  method TreatCall(c: Context, p: seq<Token>, i: nat, end: nat) returns (q: seq<Token>)
    requires i <= end < |p| && (end - i) % 2 == 0
    ensures TreatedBelow(c, p, Call, i, end, q, |p|)
  {
    q := p;
    var j := i;
    TreatedNothing(c, p, Call, i, end);
    while j < end
      invariant i <= j <= end && (j - i) % 2 == 0 && TreatedBelow(c, p, Call, i, end, q, j)
    {
      ghost var was := q;
      q := RewriteSchema(c, q, j);
      TreatedSchema(c, p, Call, i, end, was, j, q);
      j := j + 2;
    }
    if p[end].kind == QuotedName { q := q[end := q[end].(text := Quote(p[end].name))]; }
    TreatedRest(c, p, Call, i, end, q);
  }

  method TreatNames(c: Context, p: seq<Token>, i: nat, end: nat, schemaEnd: int) returns (q: seq<Token>)
    requires i <= end < |p| && (end - i) % 2 == 0 && schemaEnd <= end - 2 && (schemaEnd - i) % 2 == 0
    ensures TreatedBelow(c, p, Names(schemaEnd), i, end, q, |p|)
  {
    q := p;
    var j := i;
    TreatedNothing(c, p, Names(schemaEnd), i, end);
    while j <= end
      invariant i <= j <= end + 2 && (j - i) % 2 == 0
      invariant TreatedBelow(c, p, Names(schemaEnd), i, end, q, if j <= end then j else end + 1)
    {
      ghost var was := q;
      if j <= schemaEnd {
        q := RewriteSchema(c, q, j);
        TreatedSchema(c, p, Names(schemaEnd), i, end, was, j, q);
      } else {
        q := q[j := q[j].(text := Quote(c.u.upper(p[j].name)))];
        TreatedName(c, p, schemaEnd, i, end, was, j, q);
      }
      j := j + 2;
    }
    TreatedRest(c, p, Names(schemaEnd), i, end, q);
  }

  lemma TreatedName(c: Context, p: seq<Token>, schemaEnd: int, i: nat, end: int, q: seq<Token>, j: int, q': seq<Token>)
    requires TreatedBelow(c, p, Names(schemaEnd), i, end, q, j) && i <= j <= end && schemaEnd < j < |p|
    requires (j - i) % 2 == 0 && (schemaEnd - i) % 2 == 0
    requires q' == q[j := q[j].(text := Quote(c.u.upper(p[j].name)))]
    ensures TreatedBelow(c, p, Names(schemaEnd), i, end, q', if j + 2 <= end then j + 2 else end + 1)
  {
    assert TextAfter(c, p, Names(schemaEnd), i, end, j) == Quote(c.u.upper(p[j].name));
    if j + 1 < |p| { assert TextAfter(c, p, Names(schemaEnd), i, end, j + 1) == p[j + 1].text; }
    assert j == end || j + 2 <= end || j + 1 == end;
  }

  method Treat(c: Context, p: seq<Token>, env: Env, from: bool, i: nat) returns (q: seq<Token>)
    requires i < |p|
    ensures q == Visit(c, p, env, from, i)
  {
    if !IdentAt(p, i) || i in env.preserve || Is(p, i - 1, DOT) { return p; }
    var end := FindEnd(p, i);
    if CallAt(c, p, env, from, i, end) {
      q := TreatCall(c, p, i, end);
      TreatedAll(c, p, env, from, i, Call, end, q);
      return;
    }
    if KeywordAt(c, p, i, end) { return p; }
    if LiteralAt(p, end + 1) { return p; }
    var schemaEnd := SchemaEnd(c, p, env, from, i, end);
    q := TreatNames(c, p, i, end, schemaEnd);
    TreatedAll(c, p, env, from, i, Names(schemaEnd), end, q);
  }

  lemma TreatedAll(c: Context, p: seq<Token>, env: Env, from: bool, i: int, treatment: Treatment, end: int,
      q: seq<Token>)
    requires TreatmentAt(c, p, env, from, i) == treatment && !treatment.Skip? && end == ChainEnd(p, i)
    requires TreatedBelow(c, p, treatment, i, end, q, |p|)
    ensures q == Visit(c, p, env, from, i)
  {
    forall k | 0 <= k < |p| ensures q[k] == Treated(c, p, treatment, i, end, |p|)[k] {
      TreatedAt(c, p, treatment, i, end, |p|, k);
    }
  }
}
