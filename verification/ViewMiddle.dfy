// The final text of every middle part of a dotted name, read off the lexed view (the last loop of
// normalizeOscarViewForSource in datamigrate/oscar_view.go).
module ViewMiddle {
  import opened Wrappers
  import opened Encoding
  import opened StringLiterals
  import opened ViewLexer
  import opened ViewPairs
  import opened ViewNames
  import opened ViewRewriting
  import opened ViewSchemas
  import opened ViewParts

  // A name that is rewritten, with the last schema and the last part of its first visit.
  ghost predicate Named(c: Context, sig: seq<Token>, env: Env, h: nat, last: int, end: int) {
    && Fine(sig) && IdentAt(sig, h) && Head(sig, h) == h && !First(c, sig, env, h).Skip?
    && last == Schemas(c, sig, env, h) && end == ChainEnd(sig, h)
  }

  // ---- Dots behind the schemas ----

  lemma BeyondNext(c: Context, sig: seq<Token>, env: Env, h: nat, last: int, end: int, n: nat, k: int)
    requires Named(c, sig, env, h, last, end) && h < n < |sig|
    requires forall j :: Beyond(c, sig, Run(c, sig, env, n), h, last, end, n, j)
    ensures Beyond(c, sig, Run(c, sig, env, n + 1), h, last, end, n + 1, k)
  {
    RunTracks(c, sig, env, n);
    RunStep(c, sig, env, n);
    SchemasShape(c, sig, env, h);
    GoneAfterFirst(c, sig, env, h, n);
    if Part(sig, h, k) && Blank(sig, Run(c, sig, env, n + 1), k + 1) {
      if Blank(sig, Run(c, sig, env, n), k + 1) {
        assert Beyond(c, sig, Run(c, sig, env, n), h, last, end, n, k);
      } else {
        BlankedLater(c, sig, Run(c, sig, env, n), env, FromAt(c, sig, env, n), h, last, end, n, k);
      }
    }
  }

  lemma {:induction false} BeyondRun(c: Context, sig: seq<Token>, env: Env, h: nat, last: int, end: int, n: nat)
    requires Named(c, sig, env, h, last, end) && h < n <= |sig|
    ensures forall k :: Beyond(c, sig, Run(c, sig, env, n), h, last, end, n, k)
  {
    if n == h + 1 {
      forall k ensures Beyond(c, sig, Run(c, sig, env, n), h, last, end, n, k) { SettledFirst(c, sig, env, h, k); }
    } else {
      var before := n - 1;
      BeyondRun(c, sig, env, h, last, end, before);
      forall k ensures Beyond(c, sig, Run(c, sig, env, n), h, last, end, n, k) {
        BeyondNext(c, sig, env, h, last, end, before, k);
      }
    }
  }

  lemma LateDot(c: Context, sig: seq<Token>, env: Env, h: nat, last: int, end: int, n: nat, z: int)
    requires Named(c, sig, env, h, last, end) && h < n <= |sig|
    requires Part(sig, h, z) && z > last && Blank(sig, Run(c, sig, env, n), z + 1)
    ensures z == end - 2 && Behind(c, sig, h, last, n)
  {
    BeyondRun(c, sig, env, h, last, end, n);
    assert Beyond(c, sig, Run(c, sig, env, n), h, last, end, n, z);
  }

  // ---- Which visit is the last one of a part ----

  // The last visit of part k begins behind x: the nearest schema before it that the first visit strips, or the
  // place before the name.
  ghost predicate Nearest(c: Context, sig: seq<Token>, h: int, last: int, k: int, x: int) {
    && x < k && (x == h - 2 || (StrippedPart(c, sig, h, x) && x <= last))
    && forall z :: StrippedPart(c, sig, h, z) && z <= last && z < k ==> z <= x
  }

  // A part between the first and the last one, and where its last visit begins.
  ghost predicate Middle(c: Context, sig: seq<Token>, env: Env, h: nat, last: int, end: int, k: int, x: int) {
    Named(c, sig, env, h, last, end) && Part(sig, h, k) && h < k < end && Nearest(c, sig, h, last, k, x)
  }

  lemma NotReached(c: Context, sig: seq<Token>, env: Env, h: nat, last: int, end: int, k: int, x: int, i: nat)
    requires Middle(c, sig, env, h, last, end, k, x)
    requires h < i < |sig| && i - 2 < x && Part(sig, h, i) && i <= k && StrippedPart(c, sig, h, x)
    requires IdentAt(Run(c, sig, env, i), i)
    ensures ChainEnd(Run(c, sig, env, i), i) < k
  {
    var p := Run(c, sig, env, i);
    FirstBlanks(c, sig, env, h, x, i);
    SameParity(sig, h, i, x);
    if k <= ChainEnd(p, i) {
      PartsOf(p, i, x);
      NoBlankInside(sig, p, i, ChainEnd(p, i), x);
    }
  }

  lemma NotTouched(c: Context, sig: seq<Token>, env: Env, h: nat, last: int, end: int, k: int, x: int, i: nat,
                   next: nat)
    requires Middle(c, sig, env, h, last, end, k, x)
    requires h < i < |sig| && i != x + 2 && next == i + 1
    ensures Run(c, sig, env, next)[k] == Run(c, sig, env, i)[k]
  {
    RunTracks(c, sig, env, i);
    StepTo(c, sig, env, i, next);
    VisitMisses(c, sig, Run(c, sig, env, i), env, FromAt(c, sig, env, i), h, last, end, k, x, i);
  }

  lemma StepTo(c: Context, sig: seq<Token>, env: Env, n: nat, next: nat)
    requires n < |sig| && next == n + 1
    ensures Run(c, sig, env, next) == Visit(c, Run(c, sig, env, n), env, FromAt(c, sig, env, n), n)
  {
    RunStep(c, sig, env, n);
  }

  lemma VisitMisses(c: Context, sig: seq<Token>, p: seq<Token>, env: Env, from: bool, h: nat, last: int, end: int,
                    k: int, x: int, i: nat)
    requires Middle(c, sig, env, h, last, end, k, x) && h < i < |sig| && i != x + 2
    requires Tracks(c, sig, p) && p == Run(c, sig, env, i)
    ensures Visit(c, p, env, from, i)[k] == p[k]
  {
    if Visit(c, p, env, from, i)[k] != p[k] {
      BeginsBehind(c, sig, p, env, from, h, i, k);
      OutOfReach(c, sig, env, h, last, end, k, x, i);
    }
  }

  lemma OutOfReach(c: Context, sig: seq<Token>, env: Env, h: nat, last: int, end: int, k: int, x: int, i: nat)
    requires Middle(c, sig, env, h, last, end, k, x) && h < i < |sig| && i != x + 2 && Part(sig, h, i) && i <= k
    requires StrippedPart(c, sig, h, i - 2) && Blank(sig, Run(c, sig, env, i), i - 1)
    requires IdentAt(Run(c, sig, env, i), i)
    ensures ChainEnd(Run(c, sig, env, i), i) < k
  {
    if i - 2 > last {
      LateDot(c, sig, env, h, last, end, i, i - 2);
    } else {
      NotReached(c, sig, env, h, last, end, k, x, i);
    }
  }

  lemma OneMoreStays(c: Context, sig: seq<Token>, env: Env, h: nat, last: int, end: int, k: int, x: int,
                     m: nat, before: nat, n: nat)
    requires Middle(c, sig, env, h, last, end, k, x) && h < m <= before < |sig| && n == before + 1 && before != x + 2
    requires Run(c, sig, env, before)[k] == Run(c, sig, env, m)[k]
    ensures Run(c, sig, env, n)[k] == Run(c, sig, env, m)[k]
  {
    NotTouched(c, sig, env, h, last, end, k, x, before, n);
  }

  lemma {:induction false} StaysFrom(c: Context, sig: seq<Token>, env: Env, h: nat, last: int, end: int, k: int, x: int,
                                     m: nat, n: nat)
    requires Middle(c, sig, env, h, last, end, k, x)
    requires h < m <= n <= |sig| && !(m <= x + 2 < n)
    ensures Run(c, sig, env, n)[k] == Run(c, sig, env, m)[k]
    decreases n
  {
    if m < n {
      var before := n - 1;
      StaysFrom(c, sig, env, h, last, end, k, x, m, before);
      OneMoreStays(c, sig, env, h, last, end, k, x, m, before, n);
    }
  }

  // ---- The visit behind a stripped schema ----

  // Where the chain behind x ends: at the next schema that the first visit strips, or at the last part.
  ghost predicate Reaches(c: Context, sig: seq<Token>, h: int, last: int, end: int, x: int, e: int) {
    || (e <= last && Consecutive(c, sig, h, x, e))
    || (e == end && forall z :: x < z <= last ==> !StrippedPart(c, sig, h, z))
  }

  // What happens to the parts from x + 2 to e, as the lexed text decides.
  function Again(c: Context, sig: seq<Token>, env: Env, x: int, e: int, end: int): Treatment {
    var i := x + 2;
    var keyword := e == i && ReservedAt(c.u, sig, i);
    if i in env.preserve then Skip
    else if e < end then Choose(false, keyword, false, if e - i >= 4 then e - 4 else x)
    else Choose(CallAt(c, sig, env, false, i, end), keyword, LiteralAt(sig, end + 1),
           if end - i >= 4 then end - 4
           else if end > i && Is(sig, end + 1, DOT) && Is(sig, end + 2, STAR) then end - 2 else x)
  }

  lemma NotBlankYet(c: Context, sig: seq<Token>, env: Env, h: nat, last: int, end: int, x: int, z: int)
    requires Named(c, sig, env, h, last, end) && Reaches(c, sig, h, last, end, x, end) && last < end
    requires StrippedPart(c, sig, h, x) && x <= last && Part(sig, h, z) && x < z < end && x + 2 <= |sig|
    ensures !Blank(sig, Run(c, sig, env, x + 2), z + 1)
  {
    var n := x + 2;
    RunTracks(c, sig, env, n);
    assert z <= last ==> !StrippedPart(c, sig, h, z);
    if Blank(sig, Run(c, sig, env, n), z + 1) {
      DotFollowsName(c, sig, Run(c, sig, env, n), z + 1);
      if z > last { LateDot(c, sig, env, h, last, end, n, z); }
    }
  }

  lemma OneMorePart(x: int, z: int, end: int)
    requires z < end && (z - (x + 2)) % 2 == 0 && (end - x) % 2 == 0
    ensures z + 2 <= end
  {
    EvenDistance(z - (x + 2), end - x);
  }

  lemma OpenToEnd(c: Context, sig: seq<Token>, env: Env, h: nat, last: int, end: int, x: int, z: int)
    requires Named(c, sig, env, h, last, end) && Reaches(c, sig, h, last, end, x, end) && last < end
    requires StrippedPart(c, sig, h, x) && x <= last && x + 2 <= end && (end - x) % 2 == 0
    ensures PartAt(Run(c, sig, env, x + 2), x + 2, end, z)
  {
    var i, p := x + 2, Run(c, sig, env, x + 2);
    if i <= z <= end && (z - i) % 2 == 0 {
      PartOffset(sig, h, x, z);
      RunTracks(c, sig, env, i);
      assert Outcome(c, sig, p, z);
      if z < end {
        NotBlankYet(c, sig, env, h, last, end, x, z);
        DotBehind(c, sig, p, z + 1);
        OneMorePart(x, z, end);
      }
    }
  }

  lemma BeforeEnd(c: Context, sig: seq<Token>, env: Env, h: nat, last: int, end: int, x: int)
    requires Named(c, sig, env, h, last, end) && Part(sig, h, x) && x <= last
    ensures last <= end - 2 && h <= x && x + 2 <= end < |sig| && (end - x) % 2 == 0
  {
    SchemasShape(c, sig, env, h);
    PartRange(sig, h, x);
    SchemaEndBelow(c, sig, env, FromAt(c, sig, env, h), h);
    EvenDistance(x - h, end - h);
  }

  // The chain behind x, just before it is visited.
  lemma SecondChain(c: Context, sig: seq<Token>, env: Env, h: nat, last: int, end: int, x: int, e: int)
    requires Named(c, sig, env, h, last, end) && StrippedPart(c, sig, h, x) && x <= last
    requires Reaches(c, sig, h, last, end, x, e)
    ensures x + 2 <= e <= end < |sig| && (e < end <==> e <= last)
    ensures var p := Run(c, sig, env, x + 2);
            IdentAt(p, x + 2) && ChainEnd(p, x + 2) == e && Blank(sig, p, x + 1) && (e < end ==> Blank(sig, p, e + 1))
  {
    BeforeEnd(c, sig, env, h, last, end, x);
    if e <= last {
      PartRange(sig, h, e);
      ChainEndsAt(c, sig, env, h, x, e);
    } else {
      FirstBlanks(c, sig, env, h, x, x + 2);
      LastChain(c, sig, env, h, last, end, x);
    }
  }

  // The chain behind the last stripped schema.
  lemma LastChain(c: Context, sig: seq<Token>, env: Env, h: nat, last: int, end: int, x: int)
    requires Named(c, sig, env, h, last, end) && Reaches(c, sig, h, last, end, x, end) && last < end
    requires StrippedPart(c, sig, h, x) && x <= last && x + 2 <= end && (end - x) % 2 == 0
    ensures IdentAt(Run(c, sig, env, x + 2), x + 2) && ChainEnd(Run(c, sig, env, x + 2), x + 2) == end
  {
    var i, p := x + 2, Run(c, sig, env, x + 2);
    forall z ensures PartAt(p, i, end, z) { OpenToEnd(c, sig, env, h, last, end, x, z); }
    RunTracks(c, sig, env, i);
    EndStays(c, sig, p, h, end);
    ChainTo(p, i, end);
  }

  lemma EndStays(c: Context, sig: seq<Token>, p: seq<Token>, h: nat, end: int)
    requires Fine(sig) && Tracks(c, sig, p) && IdentAt(sig, h) && end == ChainEnd(sig, h)
    ensures !(Is(p, end + 1, DOT) && IdentAt(p, end + 2))
  {
    SymbolsKept(c, sig, p, end + 1);
    assert Outcome(c, sig, p, end + 2);
  }

  // A dot that no part follows is never blanked, and what follows the name is as it was lexed.
  lemma BehindEnd(c: Context, sig: seq<Token>, p: seq<Token>, env: Env, from: bool, h: nat, i: nat, end: int)
    requires Fine(sig) && Tracks(c, sig, p) && Blank(sig, p, i - 1)
    requires Is(sig, end + 1, DOT) && Is(sig, end + 2, STAR) ==> !Blank(sig, p, end + 1)
    ensures CallAt(c, p, env, from, i, end) == CallAt(c, sig, env, false, i, end)
    ensures LiteralAt(p, end + 1) == LiteralAt(sig, end + 1)
    ensures Is(p, end + 1, DOT) && Is(p, end + 2, STAR) <==> Is(sig, end + 1, DOT) && Is(sig, end + 2, STAR)
  {
    CallBehind(c, sig, p, env, from, i, end);
    SymbolsKept(c, sig, p, end + 1);
    SymbolsKept(c, sig, p, end + 2);
    KindKept(c, sig, p, end + 1);
    if Is(sig, end + 1, DOT) { DotBehind(c, sig, p, end + 1); }
  }

  lemma CallBehind(c: Context, sig: seq<Token>, p: seq<Token>, env: Env, from: bool, i: nat, end: int)
    requires Fine(sig) && Tracks(c, sig, p) && Blank(sig, p, i - 1)
    ensures CallAt(c, p, env, from, i, end) == CallAt(c, sig, env, false, i, end)
  {
    var close := if end + 1 in env.pairs.closeAt then env.pairs.closeAt[end + 1] else 0;
    BlankSaysNothing(c, sig, p, i - 1);
    SameEverywhere(c, sig, p);
    assert SameAt(c, sig, p, end + 1);
    assert SameAt(c, sig, p, close + 1) && SameAt(c, sig, p, close + 2);
  }

  lemma KindKept(c: Context, sig: seq<Token>, p: seq<Token>, k: int)
    requires Tracks(c, sig, p)
    ensures LiteralAt(p, k) == LiteralAt(sig, k)
  {
    assert Outcome(c, sig, p, k);
  }

  // A dot is still there unless it was blanked.
  lemma DotBehind(c: Context, sig: seq<Token>, p: seq<Token>, k: int)
    requires Fine(sig) && Tracks(c, sig, p) && Is(sig, k, DOT)
    ensures Is(p, k, DOT) || Blank(sig, p, k)
  {
    NotBoth(sig, k);
    assert Outcome(c, sig, p, k);
  }

  lemma StarBehind(c: Context, sig: seq<Token>, env: Env, n: nat, end: int)
    requires Fine(sig) && n <= |sig| && Is(sig, end + 1, DOT) && Is(sig, end + 2, STAR)
    ensures !Blank(sig, Run(c, sig, env, n), end + 1)
  {
    assert FineAt(sig, end + 2);
    if Blank(sig, Run(c, sig, env, n), end + 1) { BlankBeforeName(c, sig, env, n, end + 1); }
  }

  lemma ReservedStays(c: Context, sig: seq<Token>, p: seq<Token>, k: int)
    requires Tracks(c, sig, p)
    ensures ReservedAt(c.u, p, k) == ReservedAt(c.u, sig, k)
  {
    assert Outcome(c, sig, p, k);
  }

  // In front of a blanked dot nothing is called, and no literal follows.
  lemma NothingInside(c: Context, sig: seq<Token>, p: seq<Token>, env: Env, from: bool, i: nat, e: int)
    requires Fine(sig) && Tracks(c, sig, p) && Blank(sig, p, e + 1)
    ensures !CallAt(c, p, env, from, i, e) && !LiteralAt(p, e + 1) && !Is(p, e + 1, DOT)
  {
    NotLiteral(c, sig, p, e + 1);
  }

  // The chain behind x, as it is visited.
  ghost predicate Visits(c: Context, sig: seq<Token>, p: seq<Token>, x: int, e: int) {
    && Fine(sig) && Tracks(c, sig, p) && 0 <= x && x + 2 <= e < |sig| && Is(sig, x + 1, DOT) && Blank(sig, p, x + 1)
    && IdentAt(p, x + 2) && ChainEnd(p, x + 2) == e
  }

  lemma AgainInside(c: Context, sig: seq<Token>, p: seq<Token>, env: Env, from: bool, x: int, e: int, end: int)
    requires Visits(c, sig, p, x, e) && e < end && Blank(sig, p, e + 1)
    ensures TreatmentAt(c, p, env, from, x + 2) == Again(c, sig, env, x, e, end)
  {
    NoRelation(c, sig, p, env, from, x + 1);
    ReservedStays(c, sig, p, x + 2);
    NothingInside(c, sig, p, env, from, x + 2, e);
  }

  lemma AgainLast(c: Context, sig: seq<Token>, p: seq<Token>, env: Env, from: bool, h: nat, x: int, end: int)
    requires Visits(c, sig, p, x, end)
    requires Is(sig, end + 1, DOT) && Is(sig, end + 2, STAR) ==> !Blank(sig, p, end + 1)
    ensures TreatmentAt(c, p, env, from, x + 2) == Again(c, sig, env, x, end, end)
  {
    NoRelation(c, sig, p, env, from, x + 1);
    ReservedStays(c, sig, p, x + 2);
    BehindEnd(c, sig, p, env, from, h, x + 2, end);
  }

  lemma ChainVisits(c: Context, sig: seq<Token>, env: Env, h: nat, last: int, end: int, x: int, e: int)
    requires Named(c, sig, env, h, last, end) && StrippedPart(c, sig, h, x) && x <= last
    requires Reaches(c, sig, h, last, end, x, e)
    ensures x + 2 <= e <= end < |sig| && Visits(c, sig, Run(c, sig, env, x + 2), x, e)
    ensures e < end ==> Blank(sig, Run(c, sig, env, x + 2), e + 1)
  {
    SecondChain(c, sig, env, h, last, end, x, e);
    RunTracks(c, sig, env, x + 2);
  }

  // The second visit treats its chain as the lexed text decides.
  lemma AgainTreated(c: Context, sig: seq<Token>, env: Env, from: bool, h: nat, x: int, e: int, end: int, i: nat)
    requires 0 <= x && i == x + 2 <= e <= end < |sig| && Visits(c, sig, Run(c, sig, env, i), x, e)
    requires e < end ==> Blank(sig, Run(c, sig, env, i), e + 1)
    ensures TreatmentAt(c, Run(c, sig, env, i), env, from, i) == Again(c, sig, env, x, e, end)
  {
    var p := Run(c, sig, env, i);
    if e < end {
      AgainInside(c, sig, p, env, from, x, e, end);
    } else {
      StarKept(c, sig, env, i, end);
      AgainLast(c, sig, p, env, from, h, x, end);
    }
  }

  lemma StarKept(c: Context, sig: seq<Token>, env: Env, n: nat, end: int)
    requires Fine(sig) && n <= |sig|
    ensures Is(sig, end + 1, DOT) && Is(sig, end + 2, STAR) ==> !Blank(sig, Run(c, sig, env, n), end + 1)
  {
    if Is(sig, end + 1, DOT) && Is(sig, end + 2, STAR) { StarBehind(c, sig, env, n, end); }
  }

  // What a part k in front of or at e becomes when it is treated.
  function TextOf(c: Context, again: Treatment, e: int, k: int, t: Token): Text {
    if again.Skip? then t.text else if k <= LastSchema(again, e) then SchemaText(c, t) else Quote(c.u.upper(t.name))
  }

  // The text of part k behind x after the visit there.
  function AgainText(c: Context, sig: seq<Token>, env: Env, h: nat, x: int, e: int, k: nat): Text
    requires h < |sig| && k < |sig| && IdentAt(sig, h)
  {
    TextOf(c, Again(c, sig, env, x, e, ChainEnd(sig, h)), e, k, sig[k].(text := FirstText(c, sig, env, h, k)))
  }

  lemma TreatedText(c: Context, p: seq<Token>, again: Treatment, i: int, e: int, k: int)
    requires !again.Skip? && 0 <= i <= k <= e < |p| && (k - i) % 2 == 0 && (e - i) % 2 == 0 && (again.Call? ==> k < e)
    ensures TextAfter(c, p, again, i, e, k) == TextOf(c, again, e, k, p[k])
  {
    if again.Call? { assert k <= e - 2 by { assert (e - k) % 2 == 0; } }
  }

  lemma VisitedAgain(c: Context, p: seq<Token>, env: Env, from: bool, i: int, e: int, k: int, again: Treatment)
    requires 0 <= i <= k <= e < |p| && (k - i) % 2 == 0 && IdentAt(p, i) && ChainEnd(p, i) == e
    requires TreatmentAt(c, p, env, from, i) == again && (again.Call? ==> k < e)
    ensures Visit(c, p, env, from, i)[k].text == TextOf(c, again, e, k, p[k])
  {
    if !again.Skip? {
      Visited(c, p, env, from, i, k);
      TreatedText(c, p, again, i, e, k);
    }
  }

  lemma FirstUntil(c: Context, sig: seq<Token>, env: Env, h: nat, last: int, end: int, k: int, x: int, n: nat)
    requires Middle(c, sig, env, h, last, end, k, x) && h < n <= |sig| && !(h + 1 <= x + 2 < n)
    ensures Run(c, sig, env, n)[k] == sig[k].(text := FirstText(c, sig, env, h, k))
  {
    var m := h + 1;
    FirstWhole(c, sig, env, h, k, m);
    StaysFrom(c, sig, env, h, last, end, k, x, m, n);
  }

  lemma FirstWhole(c: Context, sig: seq<Token>, env: Env, h: nat, k: int, n: nat)
    requires Fine(sig) && h < |sig| && Head(sig, h) == h && Part(sig, h, k) && n == h + 1
    ensures Run(c, sig, env, n)[k] == sig[k].(text := FirstText(c, sig, env, h, k))
  {
    FirstVisit(c, sig, env, h, k);
    RunTracks(c, sig, env, n);
    assert Outcome(c, sig, Run(c, sig, env, n), k);
  }

  lemma InChain(c: Context, sig: seq<Token>, h: nat, last: int, end: int, k: int, x: int, e: int)
    requires Fine(sig) && Part(sig, h, k) && k < end && x >= h && Nearest(c, sig, h, last, k, x)
    requires Reaches(c, sig, h, last, end, x, e)
    ensures x + 2 <= k <= e && (k - x) % 2 == 0
  {
    Apart(sig, h, x, k);
  }

  lemma SecondText(c: Context, sig: seq<Token>, env: Env, h: nat, last: int, end: int, k: int, x: int, e: int, n: nat)
    requires Middle(c, sig, env, h, last, end, k, x) && x >= h && Reaches(c, sig, h, last, end, x, e)
    requires n == x + 3
    ensures n <= |sig| && Run(c, sig, env, n)[k].text == AgainText(c, sig, env, h, x, e, k)
  {
    var i, again := x + 2, Again(c, sig, env, x, e, end);
    var from := FromAt(c, sig, env, i);
    ChainVisits(c, sig, env, h, last, end, x, e);
    AgainTreated(c, sig, env, from, h, x, e, end, i);
    InChain(c, sig, h, last, end, k, x, e);
    EvenDistance(2, k - x);
    FirstUntil(c, sig, env, h, last, end, k, x, i);
    VisitedAgain(c, Run(c, sig, env, i), env, from, i, e, k, again);
    RunStep(c, sig, env, i);
  }

  // ---- Main result ----

  // The final text of a middle part is that of the visit behind the nearest schema before it that the first
  // visit strips, or without one that of the first visit: both are decided by the lexed text.
  lemma MiddlePart(c: Context, sig: seq<Token>, env: Env, h: nat, last: int, end: int, k: int, x: int, e: int)
    requires Middle(c, sig, env, h, last, end, k, x) && (x >= h ==> Reaches(c, sig, h, last, end, x, e))
    ensures Run(c, sig, env, |sig|)[k].text
            == if x < h then FirstText(c, sig, env, h, k) else AgainText(c, sig, env, h, x, e, k)
  {
    if x < h {
      FirstUntil(c, sig, env, h, last, end, k, x, |sig|);
    } else {
      SecondText(c, sig, env, h, last, end, k, x, e, x + 3);
      StaysFrom(c, sig, env, h, last, end, k, x, x + 3, |sig|);
    }
  }

  // Such a schema and the end of the chain behind it always exist.
  lemma MiddleFound(c: Context, sig: seq<Token>, env: Env, h: nat, k: int) returns (last: int, end: int, x: int, e: int)
    requires Fine(sig) && IdentAt(sig, h) && Head(sig, h) == h && !First(c, sig, env, h).Skip?
    requires Part(sig, h, k) && h < k < ChainEnd(sig, h)
    ensures Middle(c, sig, env, h, last, end, k, x) && (x >= h ==> Reaches(c, sig, h, last, end, x, e))
  {
    last, end := Schemas(c, sig, env, h), ChainEnd(sig, h);
    x := k - 1;
    while x >= h && !(StrippedPart(c, sig, h, x) && x <= last)
      invariant h - 1 <= x < k
      invariant forall z :: StrippedPart(c, sig, h, z) && z <= last && z < k ==> z <= x
    {
      x := x - 1;
    }
    if x < h { x := h - 2; }
    e := x + 1;
    while e <= last && !StrippedPart(c, sig, h, e)
      invariant x < e && forall z :: x < z < e ==> !StrippedPart(c, sig, h, z)
      decreases last - e
    {
      e := e + 1;
    }
    if e > last { e := end; }
  }
}
