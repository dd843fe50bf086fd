// What rewriting the names of a view keeps and changes, over whole texts
// (normalizeOscarViewForSource in datamigrate/oscar_view.go).
module ViewRewriting {
  import opened Wrappers
  import opened Encoding
  import opened StringLiterals
  import opened ViewLexer
  import opened ViewPairs
  import opened ViewKeep
  import opened ViewNames

  // ---- Every token becomes what its kind allows ----

  lemma SchemaEndBelow(c: Context, p: seq<Token>, env: Env, from: bool, i: int)
    requires IdentAt(p, i)
    ensures var e := SchemaEnd(c, p, env, from, i, ChainEnd(p, i)); e <= ChainEnd(p, i) - 2 && (e - i) % 2 == 0
  {
    EvenSteps(i, ChainEnd(p, i));
  }

  lemma EvenSteps(i: int, end: int)
    requires i <= end && (end - i) % 2 == 0
    ensures (end - 2 - i) % 2 == 0 && (end - 4 - i) % 2 == 0 && (i - 2 - i) % 2 == 0
    ensures end > i ==> end >= i + 2
  {
    assert end - i == 2 * ((end - i) / 2);
    assert end - 2 - i == 2 * ((end - i) / 2 - 1) && end - 4 - i == 2 * ((end - i) / 2 - 2);
  }

  // What is known of position k when the name from i to end is treated.
  ghost predicate PartAt(p: seq<Token>, i: int, end: int, k: int) {
    i <= k <= end && (k - i) % 2 == 0 ==> IdentAt(p, k) && (k < end ==> Is(p, k + 1, DOT) && k + 2 <= end)
  }

  ghost predicate SchemasBelow(treatment: Treatment, i: int, end: int) {
    !treatment.Skip? && 0 <= i <= end && (end - i) % 2 == 0
    && (treatment.Names? ==> treatment.schemaEnd <= end - 2 && (treatment.schemaEnd - i) % 2 == 0)
  }

  lemma NameOutcome(c: Context, sig: seq<Token>, p: seq<Token>, treatment: Treatment, i: int, end: int, k: int,
      next: Text)
    requires |p| == |sig| && Outcome(c, sig, p, k) && IdentAt(sig, k) && !Is(p, k, DOT)
    requires SchemasBelow(treatment, i, end) && PartAt(p, i, end, k) && PartAt(p, i, end, k - 1)
    requires Is(p, k + 1, DOT) ==> Is(sig, k + 1, DOT)
    requires k + 1 < |p| ==> next == TextAfter(c, p, treatment, i, end, k + 1)
    requires Blank(sig, p, k + 1) ==> next == []
    ensures var now := TextAfter(c, p, treatment, i, end, k);
            || NameBecomes(c, sig[k], now)
            || (now == [] && Stripped(c, sig[k].name) && Is(sig, k + 1, DOT) && next == [])
  {}

  lemma OtherOutcome(c: Context, sig: seq<Token>, p: seq<Token>, treatment: Treatment, i: int, end: int, k: int)
    requires |p| == |sig| && 0 <= k < |sig| && !IdentAt(sig, k) && Outcome(c, sig, p, k) && Outcome(c, sig, p, k - 1)
    requires SchemasBelow(treatment, i, end) && PartAt(p, i, end, k) && PartAt(p, i, end, k - 1)
    requires Is(p, k, DOT) ==> Is(sig, k, DOT)
    ensures var now := TextAfter(c, p, treatment, i, end, k);
            now == sig[k].text || (Is(sig, k, DOT) && now == [] && IdentAt(sig, k - 1) && Stripped(c, sig[k - 1].name))
    ensures Blank(sig, p, k) ==> TextAfter(c, p, treatment, i, end, k) == []
  {}

  lemma PartsOf(p: seq<Token>, i: int, k: int)
    requires IdentAt(p, i)
    ensures PartAt(p, i, ChainEnd(p, i), k)
  {
    if i <= k <= ChainEnd(p, i) && (k - i) % 2 == 0 { ChainParts(p, i, k); }
  }

  lemma AfterName(c: Context, sig: seq<Token>, p: seq<Token>, treatment: Treatment, i: int, end: int, k: int)
    requires Fine(sig) && Tracks(c, sig, p) && IdentAt(sig, k)
    requires SchemasBelow(treatment, i, end) && PartAt(p, i, end, k) && PartAt(p, i, end, k - 1)
             && PartAt(p, i, end, k + 1)
    ensures var now := TextAfter(c, p, treatment, i, end, k);
            || NameBecomes(c, sig[k], now)
            || (now == [] && Stripped(c, sig[k].name) && Is(sig, k + 1, DOT)
               && TextAfter(c, p, treatment, i, end, k + 1) == [])
  {
    SymbolsKept(c, sig, p, k);
    SymbolsKept(c, sig, p, k + 1);
    assert Outcome(c, sig, p, k) && FineAt(sig, k);
    if Blank(sig, p, k + 1) { AfterOther(c, sig, p, treatment, i, end, k + 1); }
    NameOutcome(c, sig, p, treatment, i, end, k, if k + 1 < |p| then TextAfter(c, p, treatment, i, end, k + 1) else []);
  }

  lemma AfterOther(c: Context, sig: seq<Token>, p: seq<Token>, treatment: Treatment, i: int, end: int, k: int)
    requires Fine(sig) && Tracks(c, sig, p) && 0 <= k < |sig| && (!IdentAt(sig, k) || Is(sig, k, DOT))
    requires SchemasBelow(treatment, i, end) && PartAt(p, i, end, k) && PartAt(p, i, end, k - 1)
    ensures var now := TextAfter(c, p, treatment, i, end, k);
            now == sig[k].text || (Is(sig, k, DOT) && now == [] && IdentAt(sig, k - 1) && Stripped(c, sig[k - 1].name))
    ensures Blank(sig, p, k) ==> TextAfter(c, p, treatment, i, end, k) == []
  {
    SymbolsKept(c, sig, p, k);
    assert Outcome(c, sig, p, k - 1) && Outcome(c, sig, p, k) && FineAt(sig, k);
    OtherOutcome(c, sig, p, treatment, i, end, k);
  }

  // A visit in terms of what it does to each position.
  lemma Visited(c: Context, p: seq<Token>, env: Env, from: bool, i: int, k: int)
    requires 0 <= k < |p| && !TreatmentAt(c, p, env, from, i).Skip?
    ensures var treatment, end := TreatmentAt(c, p, env, from, i), ChainEnd(p, i);
            SchemasBelow(treatment, i, end)
              && Visit(c, p, env, from, i)[k] == p[k].(text := TextAfter(c, p, treatment, i, end, k))
  {
    SchemaEndBelow(c, p, env, from, i);
    TreatedAt(c, p, TreatmentAt(c, p, env, from, i), i, ChainEnd(p, i), |p|, k);
  }

  lemma NameTreated(c: Context, sig: seq<Token>, p: seq<Token>, treatment: Treatment, i: int, k: int)
    requires Fine(sig) && Tracks(c, sig, p) && IdentAt(sig, k) && IdentAt(p, i)
    requires SchemasBelow(treatment, i, ChainEnd(p, i))
    ensures var end := ChainEnd(p, i); var now := TextAfter(c, p, treatment, i, end, k);
            || NameBecomes(c, sig[k], now)
            || (now == [] && Stripped(c, sig[k].name) && Is(sig, k + 1, DOT)
               && TextAfter(c, p, treatment, i, end, k + 1) == [])
  {
    PartsOf(p, i, k - 1);
    PartsOf(p, i, k);
    PartsOf(p, i, k + 1);
    AfterName(c, sig, p, treatment, i, ChainEnd(p, i), k);
  }

  lemma VisitedText(c: Context, p: seq<Token>, env: Env, from: bool, i: int, k: int, treatment: Treatment)
    requires 0 <= k < |p| && treatment == TreatmentAt(c, p, env, from, i) && !treatment.Skip?
    ensures Visit(c, p, env, from, i)[k] == p[k].(text := TextAfter(c, p, treatment, i, ChainEnd(p, i), k))
  {
    Visited(c, p, env, from, i, k);
  }

  lemma Treats(c: Context, p: seq<Token>, env: Env, from: bool, i: int)
    requires !TreatmentAt(c, p, env, from, i).Skip?
    ensures IdentAt(p, i) && SchemasBelow(TreatmentAt(c, p, env, from, i), i, ChainEnd(p, i))
  {
    Visited(c, p, env, from, i, i);
  }

  lemma VisitedName(c: Context, sig: seq<Token>, p: seq<Token>, env: Env, from: bool, i: int, k: int)
    requires Fine(sig) && Tracks(c, sig, p) && IdentAt(sig, k) && !TreatmentAt(c, p, env, from, i).Skip?
    ensures Outcome(c, sig, Visit(c, p, env, from, i), k)
  {
    var treatment := TreatmentAt(c, p, env, from, i);
    Treats(c, p, env, from, i);
    NameTreated(c, sig, p, treatment, i, k);
    VisitedText(c, p, env, from, i, k, treatment);
    if k + 1 < |p| { VisitedText(c, p, env, from, i, k + 1, treatment); }
    assert Outcome(c, sig, p, k);
    TreatedOutcome(c, sig, p, Visit(c, p, env, from, i), treatment, i, ChainEnd(p, i), k);
  }

  lemma TreatedOutcome(c: Context, sig: seq<Token>, p: seq<Token>, q: seq<Token>, treatment: Treatment, i: int,
                       end: int, k: int)
    requires |q| == |p| == |sig| && IdentAt(sig, k) && Outcome(c, sig, p, k) && !treatment.Skip?
    requires q[k] == p[k].(text := TextAfter(c, p, treatment, i, end, k))
    requires k + 1 < |p| ==> q[k + 1] == p[k + 1].(text := TextAfter(c, p, treatment, i, end, k + 1))
    requires NameBecomes(c, sig[k], q[k].text)
             || (q[k].text == [] && Stripped(c, sig[k].name) && Is(sig, k + 1, DOT) && q[k + 1].text == [])
    ensures Outcome(c, sig, q, k)
  {}

  lemma VisitedOther(c: Context, sig: seq<Token>, p: seq<Token>, env: Env, from: bool, i: int, k: int)
    requires Fine(sig) && Tracks(c, sig, p) && 0 <= k < |sig| && !IdentAt(sig, k)
             && !TreatmentAt(c, p, env, from, i).Skip?
    ensures Outcome(c, sig, Visit(c, p, env, from, i), k)
  {
    Visited(c, p, env, from, i, k);
    PartsOf(p, i, k - 1);
    PartsOf(p, i, k);
    assert Outcome(c, sig, p, k);
    AfterOther(c, sig, p, TreatmentAt(c, p, env, from, i), i, ChainEnd(p, i), k);
  }

  lemma VisitTracks(c: Context, sig: seq<Token>, p: seq<Token>, env: Env, from: bool, i: int)
    requires Fine(sig) && Tracks(c, sig, p)
    ensures Tracks(c, sig, Visit(c, p, env, from, i))
  {
    if !TreatmentAt(c, p, env, from, i).Skip? {
      forall k ensures Outcome(c, sig, Visit(c, p, env, from, i), k) {
        if IdentAt(sig, k) {
          VisitedName(c, sig, p, env, from, i, k);
        } else if 0 <= k < |sig| {
          VisitedOther(c, sig, p, env, from, i, k);
        }
      }
    }
  }

  lemma TracksItself(c: Context, sig: seq<Token>)
    ensures Tracks(c, sig, sig)
  {}

  lemma {:induction false} RunTracks(c: Context, sig: seq<Token>, env: Env, n: nat)
    requires Fine(sig) && n <= |sig|
    ensures Tracks(c, sig, Run(c, sig, env, n))
  {
    if n == 0 {
      TracksItself(c, sig);
    } else {
      RunTracks(c, sig, env, n - 1);
      RunStep(c, sig, env, n - 1);
      VisitTracks(c, sig, Run(c, sig, env, n - 1), env, FromAt(c, sig, env, n - 1), n - 1);
    }
  }

  // Literals are untouched; punctuation changes only where the dot after a stripped schema is blanked.
  lemma LiteralsAndPunctuation(c: Context, sig: seq<Token>, env: Env, n: nat, k: int)
    requires Fine(sig) && n <= |sig| && 0 <= k < |sig| && !IdentAt(sig, k)
    ensures var now := Run(c, sig, env, n)[k];
            || now == sig[k]
            || (sig[k].kind == Punctuation && sig[k].text == [DOT] && now.text == [] && IdentAt(sig, k - 1)
               && Stripped(c, sig[k - 1].name))
  {
    RunTracks(c, sig, env, n);
    assert Outcome(c, sig, Run(c, sig, env, n), k) && FineAt(sig, k);
  }

  // ---- Dotted names ----

  // Where the dotted name that holds position k begins; a dot belongs to the name before it.
  function Head(sig: seq<Token>, k: int): (h: int)
    requires 0 <= k < |sig|
    ensures 0 <= h <= k
    decreases k
  {
    if IdentAt(sig, k) && Is(sig, k - 1, DOT) && IdentAt(sig, k - 2) then Head(sig, k - 2)
    else if Is(sig, k, DOT) && IdentAt(sig, k - 1) then Head(sig, k - 1)
    else k
  }

  lemma NotBoth(sig: seq<Token>, k: int)
    requires Fine(sig) && Is(sig, k, DOT)
    ensures !IdentAt(sig, k)
  {
    assert FineAt(sig, k);
  }

  // Names stay names, and a dot that is left was one before.
  ghost predicate LinkAt(sig: seq<Token>, p: seq<Token>, m: int) {
    (IdentAt(p, m) <==> IdentAt(sig, m)) && (Is(p, m, DOT) ==> Is(sig, m, DOT) && !IdentAt(sig, m))
  }

  lemma Links(c: Context, sig: seq<Token>, p: seq<Token>)
    requires Fine(sig) && Tracks(c, sig, p)
    ensures forall m :: LinkAt(sig, p, m)
  {
    forall m ensures LinkAt(sig, p, m) {
      SymbolsKept(c, sig, p, m);
      assert Outcome(c, sig, p, m);
      if Is(sig, m, DOT) { NotBoth(sig, m); }
    }
  }

  lemma HeadOfDot(sig: seq<Token>, p: seq<Token>, k: int)
    requires |sig| == |p| && LinkAt(sig, p, k - 1) && LinkAt(sig, p, k) && IdentAt(p, k - 1) && Is(p, k, DOT)
    ensures Head(sig, k) == Head(sig, k - 1)
  {}

  lemma HeadOfPart(sig: seq<Token>, p: seq<Token>, k: int)
    requires |sig| == |p| && LinkAt(sig, p, k - 2) && LinkAt(sig, p, k - 1) && LinkAt(sig, p, k)
    requires IdentAt(p, k - 2) && Is(p, k - 1, DOT) && IdentAt(p, k)
    ensures Head(sig, k) == Head(sig, k - 2)
  {}

  lemma {:induction false} ChainHead(sig: seq<Token>, p: seq<Token>, i: int, end: int, k: int)
    requires |sig| == |p| && 0 <= i <= k <= end < |p| && (end - i) % 2 == 0
    requires forall m :: LinkAt(sig, p, m)
    requires forall m :: PartAt(p, i, end, m)
    ensures Head(sig, k) == Head(sig, i)
    decreases k
  {
    if i < k {
      assert LinkAt(sig, p, k) && LinkAt(sig, p, k - 1);
      if (k - i) % 2 == 1 {
        ChainHead(sig, p, i, end, k - 1);
        assert PartAt(p, i, end, k - 1);
        HeadOfDot(sig, p, k);
      } else {
        ChainHead(sig, p, i, end, k - 2);
        assert LinkAt(sig, p, k - 2);
        assert PartAt(p, i, end, k - 2) && PartAt(p, i, end, k);
        HeadOfPart(sig, p, k);
      }
    }
  }

  // A visit changes tokens of one dotted name only, from the visited part on.
  lemma VisitStaysInName(c: Context, sig: seq<Token>, p: seq<Token>, env: Env, from: bool, i: int, k: int)
    requires Fine(sig) && Tracks(c, sig, p) && 0 <= i < |p| && 0 <= k < |p| && Visit(c, p, env, from, i)[k] != p[k]
    ensures !TreatmentAt(c, p, env, from, i).Skip? && i <= k <= ChainEnd(p, i) && Head(sig, k) == Head(sig, i)
  {
    Visited(c, p, env, from, i, k);
    ChainInName(c, sig, p, i, k);
  }

  lemma ChainInName(c: Context, sig: seq<Token>, p: seq<Token>, i: int, k: int)
    requires Fine(sig) && Tracks(c, sig, p) && IdentAt(p, i) && i <= k <= ChainEnd(p, i)
    ensures Head(sig, k) == Head(sig, i)
  {
    forall m ensures PartAt(p, i, ChainEnd(p, i), m) { PartsOf(p, i, m); }
    Links(c, sig, p);
    ChainHead(sig, p, i, ChainEnd(p, i), k);
  }

  function FromAt(c: Context, sig: seq<Token>, env: Env, i: nat): bool
    requires i < |sig|
  {
    FlagsAt(c.u, sig, env.pairs.expressionFrom, i + 1).from
  }

  // What the text as it was lexed says about the name that begins at h.
  function First(c: Context, sig: seq<Token>, env: Env, h: nat): Treatment
    requires h < |sig|
  {
    TreatmentAt(c, sig, env, FromAt(c, sig, env, h), h)
  }

  lemma RunStep(c: Context, sig: seq<Token>, env: Env, n: nat)
    requires n < |sig|
    ensures Run(c, sig, env, n + 1) == Visit(c, Run(c, sig, env, n), env, FromAt(c, sig, env, n), n)
  {}

  lemma LaterStep(c: Context, sig: seq<Token>, p: seq<Token>, env: Env, from: bool, i: int, k: int)
    requires Fine(sig) && Tracks(c, sig, p) && 0 <= i < |sig| && 0 <= k < |sig| && Head(sig, k) > i
    ensures Visit(c, p, env, from, i)[k] == p[k]
  {
    if Visit(c, p, env, from, i)[k] != p[k] { VisitStaysInName(c, sig, p, env, from, i, k); }
  }

  lemma LaterRun(c: Context, sig: seq<Token>, env: Env, n: nat, k: int)
    requires Fine(sig) && n < |sig| && 0 <= k < |sig| && Head(sig, k) > n
    ensures Run(c, sig, env, n + 1)[k] == Run(c, sig, env, n)[k]
  {
    RunTracks(c, sig, env, n);
    RunStep(c, sig, env, n);
    LaterStep(c, sig, Run(c, sig, env, n), env, FromAt(c, sig, env, n), n, k);
  }

  // Names that begin later have not been touched yet.
  lemma {:induction false} LaterUntouched(c: Context, sig: seq<Token>, env: Env, n: nat, k: int)
    requires Fine(sig) && n <= |sig| && 0 <= k < |sig| && Head(sig, k) >= n
    ensures Run(c, sig, env, n)[k] == sig[k]
  {
    if n > 0 {
      LaterUntouched(c, sig, env, n - 1, k);
      LaterRun(c, sig, env, n - 1, k);
    }
  }

  // ---- The first visit sees the text as it was lexed ----

  ghost predicate UntouchedAt(sig: seq<Token>, p: seq<Token>, h: int, k: int) {
    0 <= k < |sig| == |p| && Head(sig, k) == h ==> p[k] == sig[k]
  }

  ghost predicate NameUntouched(sig: seq<Token>, p: seq<Token>, h: int) {
    |p| == |sig| && forall k :: UntouchedAt(sig, p, h, k)
  }

  lemma {:induction false} SameChain(sig: seq<Token>, p: seq<Token>, h: int, i: int)
    requires NameUntouched(sig, p, h) && IdentAt(sig, i) && Head(sig, i) == h
    requires forall m :: LinkAt(sig, p, m)
    requires forall m :: Is(sig, m, DOT) ==> !IdentAt(sig, m)
    ensures IdentAt(p, i) && ChainEnd(p, i) == ChainEnd(sig, i)
    ensures Head(sig, ChainEnd(sig, i)) == h
    ensures Is(p, ChainEnd(sig, i) + 1, DOT) == Is(sig, ChainEnd(sig, i) + 1, DOT)
    decreases |sig| - i
  {
    assert LinkAt(sig, p, i) && LinkAt(sig, p, i + 1) && LinkAt(sig, p, i + 2);
    assert UntouchedAt(sig, p, h, i + 1);
    if Is(sig, i + 1, DOT) {
      assert Head(sig, i + 1) == h;
      if IdentAt(sig, i + 2) { SameChain(sig, p, h, i + 2); }
    }
  }

  ghost predicate SameAt(c: Context, sig: seq<Token>, p: seq<Token>, k: int) {
    && WordAt(c.u, p, k) == WordAt(c.u, sig, k) && ReservedAt(c.u, p, k) == ReservedAt(c.u, sig, k)
    && IdentAt(p, k) == IdentAt(sig, k) && LiteralAt(p, k) == LiteralAt(sig, k)
    && Is(p, k, OPEN) == Is(sig, k, OPEN) && Is(p, k, CLOSE) == Is(sig, k, CLOSE)
    && Is(p, k, COMMA) == Is(sig, k, COMMA) && Is(p, k, STAR) == Is(sig, k, STAR)
    && (0 <= k < |p| == |sig| ==> p[k].kind == sig[k].kind && p[k].name == sig[k].name)
  }

  lemma SameEverywhere(c: Context, sig: seq<Token>, p: seq<Token>)
    requires Fine(sig) && Tracks(c, sig, p)
    ensures forall k :: SameAt(c, sig, p, k)
  {
    forall k ensures SameAt(c, sig, p, k) {
      SymbolsKept(c, sig, p, k);
      assert Outcome(c, sig, p, k);
    }
  }

  lemma SameCall(c: Context, sig: seq<Token>, p: seq<Token>, env: Env, from: bool, i: int, end: int)
    requires forall k :: SameAt(c, sig, p, k)
    ensures CallAt(c, p, env, from, i, end) == CallAt(c, sig, env, from, i, end)
  {
    var close := if end + 1 in env.pairs.closeAt then env.pairs.closeAt[end + 1] else 0;
    assert SameAt(c, sig, p, end + 1) && SameAt(c, sig, p, i - 1);
    assert SameAt(c, sig, p, close + 1) && SameAt(c, sig, p, close + 2);
  }

  lemma SameSchemaEnd(c: Context, sig: seq<Token>, p: seq<Token>, env: Env, from: bool, i: int, end: int)
    requires forall k :: SameAt(c, sig, p, k)
    requires Is(p, end + 1, DOT) == Is(sig, end + 1, DOT)
    ensures SchemaEnd(c, p, env, from, i, end) == SchemaEnd(c, sig, env, from, i, end)
  {
    assert SameAt(c, sig, p, end + 2) && SameAt(c, sig, p, i - 1);
  }

  // A dot in front of a name's first part follows no name, so nothing ever blanks it.
  lemma DotBeforeHead(c: Context, sig: seq<Token>, p: seq<Token>, h: int)
    requires Fine(sig) && Tracks(c, sig, p) && 0 <= h < |sig| && IdentAt(sig, h) && Head(sig, h) == h
    ensures Is(p, h - 1, DOT) == Is(sig, h - 1, DOT)
  {
    SymbolsKept(c, sig, p, h - 1);
    assert Outcome(c, sig, p, h - 1);
    if Is(sig, h - 1, DOT) { NotBoth(sig, h - 1); }
  }

  lemma SameEnd(c: Context, sig: seq<Token>, p: seq<Token>, h: int)
    requires Fine(sig) && Tracks(c, sig, p) && IdentAt(sig, h) && Head(sig, h) == h && NameUntouched(sig, p, h)
    ensures IdentAt(p, h) && ChainEnd(p, h) == ChainEnd(sig, h)
    ensures Is(p, ChainEnd(sig, h) + 1, DOT) == Is(sig, ChainEnd(sig, h) + 1, DOT)
  {
    Links(c, sig, p);
    forall m | Is(sig, m, DOT) ensures !IdentAt(sig, m) { NotBoth(sig, m); }
    SameChain(sig, p, h, h);
  }

  lemma SameTreatment(c: Context, sig: seq<Token>, p: seq<Token>, env: Env, from: bool, h: int)
    requires Fine(sig) && Tracks(c, sig, p) && 0 <= h < |sig| && Head(sig, h) == h && NameUntouched(sig, p, h)
    ensures TreatmentAt(c, p, env, from, h) == TreatmentAt(c, sig, env, from, h)
    ensures IdentAt(sig, h) ==> IdentAt(p, h) && ChainEnd(p, h) == ChainEnd(sig, h)
  {
    SameEverywhere(c, sig, p);
    assert SameAt(c, sig, p, h);
    if IdentAt(sig, h) {
      DotBeforeHead(c, sig, p, h);
      SameEnd(c, sig, p, h);
      var end := ChainEnd(sig, h);
      SameChoice(c, sig, p, env, from, h, end);
      if h !in env.preserve && !Is(sig, h - 1, DOT) { SameChosen(c, sig, p, env, from, h, end); }
    }
  }

  lemma SameChosen(c: Context, sig: seq<Token>, p: seq<Token>, env: Env, from: bool, h: int, end: int)
    requires IdentAt(sig, h) && IdentAt(p, h) && h !in env.preserve && !Is(sig, h - 1, DOT) && !Is(p, h - 1, DOT)
    requires ChainEnd(p, h) == ChainEnd(sig, h) == end
    requires CallAt(c, p, env, from, h, end) == CallAt(c, sig, env, from, h, end)
    requires SchemaEnd(c, p, env, from, h, end) == SchemaEnd(c, sig, env, from, h, end)
    requires KeywordAt(c, p, h, end) == KeywordAt(c, sig, h, end) && LiteralAt(p, end + 1) == LiteralAt(sig, end + 1)
    ensures TreatmentAt(c, p, env, from, h) == TreatmentAt(c, sig, env, from, h)
  {
    var call, schemaEnd := CallAt(c, sig, env, from, h, end), SchemaEnd(c, sig, env, from, h, end);
    TreatmentIs(c, sig, env, from, h, call, KeywordAt(c, sig, h, end), LiteralAt(sig, end + 1), schemaEnd);
    TreatmentIs(c, p, env, from, h, call, KeywordAt(c, sig, h, end), LiteralAt(sig, end + 1), schemaEnd);
  }

  lemma SameChoice(c: Context, sig: seq<Token>, p: seq<Token>, env: Env, from: bool, h: int, end: int)
    requires (forall k :: SameAt(c, sig, p, k)) && Is(p, end + 1, DOT) == Is(sig, end + 1, DOT)
    ensures CallAt(c, p, env, from, h, end) == CallAt(c, sig, env, from, h, end)
    ensures SchemaEnd(c, p, env, from, h, end) == SchemaEnd(c, sig, env, from, h, end)
    ensures KeywordAt(c, p, h, end) == KeywordAt(c, sig, h, end) && LiteralAt(p, end + 1) == LiteralAt(sig, end + 1)
  {
    SameCall(c, sig, p, env, from, h, end);
    SameSchemaEnd(c, sig, p, env, from, h, end);
    assert SameAt(c, sig, p, h) && SameAt(c, sig, p, end + 1);
  }

  lemma TreatmentIs(c: Context, p: seq<Token>, env: Env, from: bool, h: int, call: bool, keyword: bool, literal: bool,
      schemaEnd: int)
    requires IdentAt(p, h) && h !in env.preserve && !Is(p, h - 1, DOT)
    requires call == CallAt(c, p, env, from, h, ChainEnd(p, h)) && keyword == KeywordAt(c, p, h, ChainEnd(p, h))
    requires literal == LiteralAt(p, ChainEnd(p, h) + 1) && schemaEnd == SchemaEnd(c, p, env, from, h, ChainEnd(p, h))
    ensures TreatmentAt(c, p, env, from, h) == Choose(call, keyword, literal, schemaEnd)
  {}

  function FirstText(c: Context, sig: seq<Token>, env: Env, h: nat, k: nat): Text
    requires h < |sig| && k < |sig|
  {
    var first := First(c, sig, env, h);
    if first.Skip? then sig[k].text else TextAfter(c, sig, first, h, ChainEnd(sig, h), k)
  }

  lemma UntouchedUntil(c: Context, sig: seq<Token>, env: Env, h: nat)
    requires Fine(sig) && h <= |sig|
    ensures NameUntouched(sig, Run(c, sig, env, h), h)
  {
    forall k ensures UntouchedAt(sig, Run(c, sig, env, h), h, k) {
      if 0 <= k < |sig| && Head(sig, k) == h { LaterUntouched(c, sig, env, h, k); }
    }
  }

  lemma FirstStep(c: Context, sig: seq<Token>, p: seq<Token>, env: Env, from: bool, h: nat, k: nat)
    requires Fine(sig) && Tracks(c, sig, p) && h < |sig| && Head(sig, h) == h && k < |sig| && Head(sig, k) == h
    requires NameUntouched(sig, p, h)
    ensures var first := TreatmentAt(c, sig, env, from, h);
            Visit(c, p, env, from, h)[k].text ==
            if first.Skip? then sig[k].text else TextAfter(c, sig, first, h, ChainEnd(sig, h), k)
  {
    SameTreatment(c, sig, p, env, from, h);
    assert UntouchedAt(sig, p, h, k);
    if !TreatmentAt(c, sig, env, from, h).Skip? {
      Visited(c, p, env, from, h, k);
      assert Outcome(c, sig, p, k - 1);
    }
  }

  lemma FirstVisit(c: Context, sig: seq<Token>, env: Env, h: nat, k: nat)
    requires Fine(sig) && h < |sig| && Head(sig, h) == h && k < |sig| && Head(sig, k) == h
    ensures Run(c, sig, env, h + 1)[k].text == FirstText(c, sig, env, h, k)
  {
    RunTracks(c, sig, env, h);
    UntouchedUntil(c, sig, env, h);
    RunStep(c, sig, env, h);
    FirstStep(c, sig, Run(c, sig, env, h), env, FromAt(c, sig, env, h), h, k);
  }

  // ---- Names that stay as they are ----

  lemma SkipStep(c: Context, sig: seq<Token>, p: seq<Token>, env: Env, from: bool, h: int, i: int)
    requires Fine(sig) && Tracks(c, sig, p) && 0 <= h < |sig| && Head(sig, h) == h && NameUntouched(sig, p, h)
             && 0 <= i < |sig|
    requires i == h ==> TreatmentAt(c, sig, env, from, h).Skip?
    ensures NameUntouched(sig, Visit(c, p, env, from, i), h)
  {
    if Head(sig, i) == h {
      if i == h {
        SameTreatment(c, sig, p, env, from, h);
      } else {
        SkipsInside(c, sig, p, env, from, h, i);
      }
    } else {
      forall k ensures UntouchedAt(sig, Visit(c, p, env, from, i), h, k) {
        assert UntouchedAt(sig, p, h, k);
        if 0 <= k < |sig| && Visit(c, p, env, from, i)[k] != p[k] { VisitStaysInName(c, sig, p, env, from, i, k); }
      }
    }
  }

  // Inside a name whose dots are all still there, no part is visited on its own.
  lemma SkipsInside(c: Context, sig: seq<Token>, p: seq<Token>, env: Env, from: bool, h: int, i: int)
    requires Fine(sig) && Tracks(c, sig, p) && NameUntouched(sig, p, h) && 0 <= h < i < |sig| && Head(sig, i) == h
    ensures TreatmentAt(c, p, env, from, i).Skip?
  {
    assert Outcome(c, sig, p, i) && FineAt(sig, i);
    if IdentAt(sig, i) {
      NotBoth(sig, i - 1);
      assert Head(sig, i - 1) == h;
      assert UntouchedAt(sig, p, h, i - 1);
    }
  }

  lemma SkipRun(c: Context, sig: seq<Token>, env: Env, h: nat, n: nat)
    requires Fine(sig) && n < |sig| && h < |sig| && Head(sig, h) == h && First(c, sig, env, h).Skip?
    requires NameUntouched(sig, Run(c, sig, env, n), h)
    ensures NameUntouched(sig, Run(c, sig, env, n + 1), h)
  {
    RunTracks(c, sig, env, n);
    RunStep(c, sig, env, n);
    SkipStep(c, sig, Run(c, sig, env, n), env, FromAt(c, sig, env, n), h, n);
  }

  // A name that is skipped where it begins is never changed: preserved types and fields, names after a
  // dot that follows no name, keywords on their own, and names in front of a literal.
  lemma {:induction false} SkippedNameStays(c: Context, sig: seq<Token>, env: Env, h: nat, n: nat)
    requires Fine(sig) && n <= |sig| && h < |sig| && Head(sig, h) == h && First(c, sig, env, h).Skip?
    ensures NameUntouched(sig, Run(c, sig, env, n), h)
  {
    if n > 0 {
      SkippedNameStays(c, sig, env, h, n - 1);
      SkipRun(c, sig, env, h, n - 1);
    }
  }

  // ---- Names that change ----

  lemma EarlierStep(c: Context, sig: seq<Token>, p: seq<Token>, env: Env, from: bool, i: int, k: int)
    requires Fine(sig) && Tracks(c, sig, p) && 0 <= k < i < |sig|
    ensures Visit(c, p, env, from, i)[k] == p[k]
  {
    if Visit(c, p, env, from, i)[k] != p[k] { VisitStaysInName(c, sig, p, env, from, i, k); }
  }

  lemma EarlierRun(c: Context, sig: seq<Token>, env: Env, k: nat, n: nat)
    requires Fine(sig) && k < n < |sig|
    ensures Run(c, sig, env, n + 1)[k] == Run(c, sig, env, n)[k]
  {
    RunTracks(c, sig, env, n);
    RunStep(c, sig, env, n);
    EarlierStep(c, sig, Run(c, sig, env, n), env, FromAt(c, sig, env, n), n, k);
  }

  lemma {:induction false} EarlierKept(c: Context, sig: seq<Token>, env: Env, k: nat, m: nat, n: nat)
    requires Fine(sig) && k < m <= n <= |sig|
    ensures Run(c, sig, env, n)[k] == Run(c, sig, env, m)[k]
    decreases n
  {
    if m < n {
      var before := n - 1;
      EarlierKept(c, sig, env, k, m, before);
      EarlierRun(c, sig, env, k, before);
      assert before + 1 == n;
    }
  }

  // The first part of a name ends up exactly as the text as it was lexed decides.
  lemma FirstPartExact(c: Context, sig: seq<Token>, env: Env, h: nat, n: nat)
    requires Fine(sig) && h < n <= |sig| && Head(sig, h) == h
    ensures Run(c, sig, env, n)[h].text == FirstText(c, sig, env, h, h)
  {
    FirstVisit(c, sig, env, h, h);
    EarlierKept(c, sig, env, h, h + 1, n);
  }

  // ---- The last part of a name ----

  ghost predicate EndsName(sig: seq<Token>, e: int) {
    IdentAt(sig, e) && !(Is(sig, e + 1, DOT) && IdentAt(sig, e + 2)) && !Is(sig, e + 1, OPEN)
  }

  lemma LastStep(c: Context, sig: seq<Token>, p: seq<Token>, env: Env, from: bool, i: int, e: int)
    requires Fine(sig) && Tracks(c, sig, p) && 0 <= i < |sig| && 0 <= e < |sig|
    requires EndsName(sig, e)
    requires p[e].text == Quote(c.u.upper(sig[e].name))
    ensures Visit(c, p, env, from, i)[e].text == Quote(c.u.upper(sig[e].name))
  {
    var q := Visit(c, p, env, from, i);
    if q[e] != p[e] {
      VisitStaysInName(c, sig, p, env, from, i, e);
      Visited(c, p, env, from, i, e);
      assert Outcome(c, sig, p, e);
      NothingBehind(c, sig, p, i, e);
      SymbolsKept(c, sig, p, e + 1);
    }
  }

  lemma NothingBehind(c: Context, sig: seq<Token>, p: seq<Token>, i: int, e: int)
    requires Fine(sig) && Tracks(c, sig, p) && IdentAt(p, i) && i <= e <= ChainEnd(p, i) && IdentAt(sig, e)
    requires !(Is(sig, e + 1, DOT) && IdentAt(sig, e + 2))
    ensures (e - i) % 2 == 0 && e == ChainEnd(p, i)
  {
    Links(c, sig, p);
    assert LinkAt(sig, p, e) && LinkAt(sig, p, e + 1) && LinkAt(sig, p, e + 2);
    PartsOf(p, i, e);
    PartsOf(p, i, e - 1);
    PartsOf(p, i, e + 2);
  }

  lemma LastRun(c: Context, sig: seq<Token>, env: Env, e: nat, n: nat, next: nat)
    requires Fine(sig) && n < |sig| && next == n + 1 && EndsName(sig, e)
    requires Run(c, sig, env, n)[e].text == Quote(c.u.upper(sig[e].name))
    ensures Run(c, sig, env, next)[e].text == Run(c, sig, env, n)[e].text
  {
    RunTracks(c, sig, env, n);
    RunStep(c, sig, env, n);
    LastStep(c, sig, Run(c, sig, env, n), env, FromAt(c, sig, env, n), n, e);
  }

  lemma {:induction false} LastKept(c: Context, sig: seq<Token>, env: Env, e: nat, m: nat, n: nat)
    requires Fine(sig) && m <= n <= |sig| && EndsName(sig, e)
             && Run(c, sig, env, m)[e].text == Quote(c.u.upper(sig[e].name))
    ensures Run(c, sig, env, n)[e].text == Run(c, sig, env, m)[e].text
    decreases n
  {
    if m < n {
      var before := n - 1;
      LastKept(c, sig, env, e, m, before);
      LastRun(c, sig, env, e, before, n);
    }
  }

  lemma EndInName(sig: seq<Token>, h: int)
    requires Fine(sig) && IdentAt(sig, h)
    ensures Head(sig, ChainEnd(sig, h)) == Head(sig, h)
  {
    forall m ensures PartAt(sig, h, ChainEnd(sig, h), m) { PartsOf(sig, h, m); }
    forall m ensures LinkAt(sig, sig, m) { if Is(sig, m, DOT) { NotBoth(sig, m); } }
    ChainHead(sig, sig, h, ChainEnd(sig, h), ChainEnd(sig, h));
  }

  // The last part of a relation or column name is upper-cased and quoted, however often it is visited.
  lemma LastPartQuoted(c: Context, sig: seq<Token>, env: Env, h: nat, n: nat)
    requires Fine(sig) && h < n <= |sig| && Head(sig, h) == h && First(c, sig, env, h).Names?
    requires !Is(sig, ChainEnd(sig, h) + 1, OPEN)
    ensures var e := ChainEnd(sig, h); Run(c, sig, env, n)[e].text == Quote(c.u.upper(sig[e].name))
  {
    var e, m := ChainEnd(sig, h), h + 1;
    LastAtOnce(c, sig, env, h, m);
    LastKept(c, sig, env, e, m, n);
  }

  lemma LastAtOnce(c: Context, sig: seq<Token>, env: Env, h: nat, n: nat)
    requires Fine(sig) && h < |sig| && n == h + 1 && Head(sig, h) == h && First(c, sig, env, h).Names?
    ensures var e := ChainEnd(sig, h); Run(c, sig, env, n)[e].text == Quote(c.u.upper(sig[e].name))
  {
    EndInName(sig, h);
    FirstVisit(c, sig, env, h, ChainEnd(sig, h));
    SchemaEndBelow(c, sig, env, FromAt(c, sig, env, h), h);
  }

  // ---- Blanked dots ----

  lemma BlankStays(c: Context, sig: seq<Token>, p: seq<Token>, env: Env, from: bool, i: int, m: int)
    requires Fine(sig) && Tracks(c, sig, p) && Blank(sig, p, m)
    ensures Blank(sig, Visit(c, p, env, from, i), m)
  {
    if !TreatmentAt(c, p, env, from, i).Skip? {
      Visited(c, p, env, from, i, m);
      PartsOf(p, i, m);
      PartsOf(p, i, m - 1);
      AfterOther(c, sig, p, TreatmentAt(c, p, env, from, i), i, ChainEnd(p, i), m);
    }
  }

  lemma HeadOfNameDot(sig: seq<Token>, k: int)
    requires Fine(sig) && Is(sig, k, DOT) && IdentAt(sig, k - 1)
    ensures Head(sig, k) == Head(sig, k - 1)
  {
    NotBoth(sig, k);
  }

  // A part that is visited on its own stands behind a blanked dot of its name.
  lemma VisitedAlone(c: Context, sig: seq<Token>, p: seq<Token>, env: Env, from: bool, i: int)
    requires Fine(sig) && Tracks(c, sig, p) && IdentAt(sig, i) && Head(sig, i) < i
             && !TreatmentAt(c, p, env, from, i).Skip?
    ensures Blank(sig, p, i - 1) && Head(sig, i - 1) == Head(sig, i)
  {
    assert FineAt(sig, i);
    HeadOfNameDot(sig, i - 1);
    assert Outcome(c, sig, p, i - 1);
    NotBoth(sig, i - 1);
  }

  lemma BlankedByVisit(c: Context, sig: seq<Token>, p: seq<Token>, env: Env, from: bool, i: int, k: int)
    requires Fine(sig) && Tracks(c, sig, p) && 0 < k < |sig| && Is(sig, k, DOT) && !Blank(sig, p, k)
    requires Blank(sig, Visit(c, p, env, from, i), k)
    ensures Visit(c, p, env, from, i)[k - 1].text == []
  {
    Visited(c, p, env, from, i, k);
    Visited(c, p, env, from, i, k - 1);
    PartsOf(p, i, k);
    assert Outcome(c, sig, p, k) && FineAt(sig, k);
    BlankText(c, p, TreatmentAt(c, p, env, from, i), i, ChainEnd(p, i), k);
  }

  lemma BlankText(c: Context, p: seq<Token>, treatment: Treatment, i: int, end: int, k: int)
    requires 0 < k < |p| && SchemasBelow(treatment, i, end) && PartAt(p, i, end, k) && !IdentAt(p, k)
    requires TextAfter(c, p, treatment, i, end, k) == [] != p[k].text
    ensures TextAfter(c, p, treatment, i, end, k - 1) == []
  {}

  lemma DotFollowsName(c: Context, sig: seq<Token>, p: seq<Token>, k: int)
    requires Fine(sig) && Tracks(c, sig, p) && Blank(sig, p, k)
    ensures 0 < k && IdentAt(sig, k - 1) && Stripped(c, sig[k - 1].name)
  {
    assert Outcome(c, sig, p, k);
    NotBoth(sig, k);
  }

  // A name is emptied only together with the dot behind it.
  lemma EmptiedNames(c: Context, sig: seq<Token>, env: Env, n: nat, k: int)
    requires Fine(sig) && n <= |sig| && IdentAt(sig, k) && Run(c, sig, env, n)[k].text == [] != sig[k].text
    ensures Stripped(c, sig[k].name) && Is(sig, k + 1, DOT) && Run(c, sig, env, n)[k + 1].text == []
  {
    RunTracks(c, sig, env, n);
    assert Outcome(c, sig, Run(c, sig, env, n), k);
  }

  // Every blanked dot stands in front of a part.
  lemma BlankedDot(c: Context, sig: seq<Token>, p: seq<Token>, env: Env, from: bool, i: nat, k: int)
    requires Fine(sig) && Tracks(c, sig, p) && i < |sig|
    requires !Blank(sig, p, k) && Blank(sig, Visit(c, p, env, from, i), k)
    ensures IdentAt(sig, k + 1)
  {
    NotBoth(sig, k);
    assert Outcome(c, sig, p, k);
    Visited(c, p, env, from, i, k);
    PartsOf(p, i, k);
    BlankInside(c, p, TreatmentAt(c, p, env, from, i), i, ChainEnd(p, i), k);
    PartsOf(p, i, k + 1);
    assert Outcome(c, sig, p, k + 1);
  }

  lemma BlankInside(c: Context, p: seq<Token>, treatment: Treatment, i: int, end: int, k: int)
    requires 0 <= k < |p| && SchemasBelow(treatment, i, end) && PartAt(p, i, end, k) && !IdentAt(p, k)
    requires TextAfter(c, p, treatment, i, end, k) == [] != p[k].text
    ensures i < k < end && (k + 1 - i) % 2 == 0
  {}

  lemma {:induction false} BlankBeforeName(c: Context, sig: seq<Token>, env: Env, n: nat, k: int)
    requires Fine(sig) && n <= |sig| && Blank(sig, Run(c, sig, env, n), k)
    ensures IdentAt(sig, k + 1)
    decreases n
  {
    if n == 0 {
      assert false;
    } else {
      var before := n - 1;
      if Blank(sig, Run(c, sig, env, before), k) {
        BlankBeforeName(c, sig, env, before, k);
      } else {
        BlankedOnce(c, sig, env, before, n, k);
      }
    }
  }

  lemma BlankedOnce(c: Context, sig: seq<Token>, env: Env, n: nat, next: nat, k: int)
    requires Fine(sig) && n < |sig| && next == n + 1
    requires !Blank(sig, Run(c, sig, env, n), k) && Blank(sig, Run(c, sig, env, next), k)
    ensures IdentAt(sig, k + 1)
  {
    RunTracks(c, sig, env, n);
    RunStep(c, sig, env, n);
    BlankedDot(c, sig, Run(c, sig, env, n), env, FromAt(c, sig, env, n), n, k);
  }

  // ---- What the documentation promises to keep ----

  // Keywords that stand on their own keep their spelling.
  lemma KeywordsKept(c: Context, sig: seq<Token>, env: Env, n: nat, k: nat)
    requires Fine(sig) && n <= |sig| && k < |sig| && ReservedAt(c.u, sig, k)
    requires Head(sig, k) == k == ChainEnd(sig, k)
    ensures Run(c, sig, env, n)[k].text == sig[k].text
  {
    if First(c, sig, env, k).Skip? {
      SkippedNameStays(c, sig, env, k, n);
      assert UntouchedAt(sig, Run(c, sig, env, n), k, k);
    } else if n <= k {
      LaterUntouched(c, sig, env, n, k);
    } else {
      FirstPartExact(c, sig, env, k, n);
    }
  }

  // Names that begin at a preserved token keep their spelling in all their parts.
  lemma PreservedKept(c: Context, sig: seq<Token>, env: Env, n: nat, k: nat)
    requires Fine(sig) && n <= |sig| && k < |sig| && Head(sig, k) in env.preserve
    ensures Run(c, sig, env, n)[k] == sig[k]
  {
    HeadIsHead(sig, k);
    SkippedNameStays(c, sig, env, Head(sig, k), n);
    assert UntouchedAt(sig, Run(c, sig, env, n), Head(sig, k), k);
  }

  lemma {:induction false} HeadIsHead(sig: seq<Token>, k: int)
    requires 0 <= k < |sig|
    ensures Head(sig, Head(sig, k)) == Head(sig, k)
    decreases k
  {
    if IdentAt(sig, k) && Is(sig, k - 1, DOT) && IdentAt(sig, k - 2) {
      HeadIsHead(sig, k - 2);
    } else if Is(sig, k, DOT) && IdentAt(sig, k - 1) {
      HeadIsHead(sig, k - 1);
    }
  }
}
