// Exactly when a view's dots disappear together with their schemas (datamigrate/oscar_view.go).
module ViewSchemas {
  import opened Wrappers
  import opened Encoding
  import opened StringLiterals
  import opened ViewLexer
  import opened ViewPairs
  import opened ViewNames
  import opened ViewRewriting

  // The parts of the name that begins at h.
  ghost predicate Part(sig: seq<Token>, h: int, k: int) {
    0 <= h <= k && IdentAt(sig, k) && Head(sig, k) == h
  }

  ghost predicate StrippedPart(c: Context, sig: seq<Token>, h: int, k: int) {
    Part(sig, h, k) && Stripped(c, sig[k].name)
  }

  // Two stripped parts of one name with none between them.
  ghost predicate Consecutive(c: Context, sig: seq<Token>, h: int, x: int, y: int) {
    x < y && StrippedPart(c, sig, h, x) && StrippedPart(c, sig, h, y)
    && forall z :: x < z < y ==> !StrippedPart(c, sig, h, z)
  }

  // The visit behind x leaves y alone: its part is preserved, or y comes next and is a reserved word.
  predicate Spares(c: Context, sig: seq<Token>, env: Env, x: int, y: int) {
    x + 2 in env.preserve || (y == x + 2 && ReservedAt(c.u, sig, y))
  }

  function LastSchema(first: Treatment, end: int): int {
    match first
    case Skip => -1
    case Call => end - 2
    case Names(schemaEnd) => schemaEnd
  }

  function Schemas(c: Context, sig: seq<Token>, env: Env, h: nat): int
    requires IdentAt(sig, h)
  {
    LastSchema(First(c, sig, env, h), ChainEnd(sig, h))
  }

  // What the lexed text must satisfy: of the schemas that the first visit strips, each is spared by the
  // visit behind the one before it.
  ghost predicate Safe(c: Context, sig: seq<Token>, env: Env, h: nat)
    requires IdentAt(sig, h)
  {
    !First(c, sig, env, h).Skip? ==>
      forall x, y :: Consecutive(c, sig, h, x, y) && y <= Schemas(c, sig, env, h) ==> Spares(c, sig, env, x, y)
  }

  // Wherever a dot of the name is gone, so is the schema in front of it.
  ghost predicate Intact(sig: seq<Token>, p: seq<Token>, h: int) {
    |p| == |sig| && forall k :: Part(sig, h, k) && Blank(sig, p, k + 1) ==> p[k].text == []
  }

  // ---- The parts of a name ----

  lemma {:induction false} PartEven(sig: seq<Token>, h: int, k: int)
    requires Fine(sig) && Part(sig, h, k)
    ensures (k - h) % 2 == 0
    decreases k
  {
    assert FineAt(sig, k);
    if k > h {
      PartEven(sig, h, k - 2);
      EvenDistance(-2, k - 2 - h);
    }
  }

  lemma {:induction false} PartRange(sig: seq<Token>, h: int, k: int)
    requires Fine(sig) && IdentAt(sig, h) && Head(sig, h) == h && Part(sig, h, k)
    ensures k <= ChainEnd(sig, h) && (k - h) % 2 == 0
    decreases k
  {
    PartEven(sig, h, k);
    if k > h {
      assert FineAt(sig, k);
      PartRange(sig, h, k - 2);
    }
  }

  lemma SameParity(sig: seq<Token>, h: int, i: int, k: int)
    requires Fine(sig) && Part(sig, h, i) && Part(sig, h, k)
    ensures (k - i) % 2 == 0
  {
    PartEven(sig, h, i);
    PartEven(sig, h, k);
    EvenDistance(i - h, k - h);
  }

  lemma EvenDistance(a: int, b: int)
    requires a % 2 == 0 && b % 2 == 0
    ensures (b - a) % 2 == 0
  {
    assert a == 2 * (a / 2) && b == 2 * (b / 2) && b - a == 2 * (b / 2 - a / 2);
  }

  lemma EvenSum(a: int, b: int)
    requires a % 2 == 0 && b % 2 == 0
    ensures (a + b + 2) % 2 == 0
  {
    assert a == 2 * (a / 2) && b == 2 * (b / 2) && a + b + 2 == 2 * (a / 2 + b / 2 + 1);
  }

  lemma PartAtOffset(sig: seq<Token>, h: int, k: int)
    requires Fine(sig) && IdentAt(sig, h) && Head(sig, h) == h && h <= k <= ChainEnd(sig, h) && (k - h) % 2 == 0
    ensures Part(sig, h, k) && (k < ChainEnd(sig, h) ==> Is(sig, k + 1, DOT) && Head(sig, k + 1) == h)
  {
    ChainParts(sig, h, k);
    forall m ensures PartAt(sig, h, ChainEnd(sig, h), m) { PartsOf(sig, h, m); }
    forall m ensures LinkAt(sig, sig, m) { if Is(sig, m, DOT) { NotBoth(sig, m); } }
    ChainHead(sig, sig, h, ChainEnd(sig, h), k);
    if k < ChainEnd(sig, h) { ChainHead(sig, sig, h, ChainEnd(sig, h), k + 1); }
  }

  lemma PartOffset(sig: seq<Token>, h: int, x: int, z: int)
    requires Fine(sig) && IdentAt(sig, h) && Head(sig, h) == h && Part(sig, h, x)
    requires x + 2 <= z <= ChainEnd(sig, h) && (z - (x + 2)) % 2 == 0
    ensures Part(sig, h, z) && (z < ChainEnd(sig, h) ==> Is(sig, z + 1, DOT) && Head(sig, z + 1) == h)
  {
    PartEven(sig, h, x);
    EvenSum(x - h, z - (x + 2));
    PartAtOffset(sig, h, z);
  }

  lemma {:induction false} ChainTo(p: seq<Token>, i: int, y: int)
    requires 0 <= i <= y < |p| && (y - i) % 2 == 0 && !(Is(p, y + 1, DOT) && IdentAt(p, y + 2))
    requires forall z :: PartAt(p, i, y, z)
    ensures IdentAt(p, i) && ChainEnd(p, i) == y
    decreases y - i
  {
    assert PartAt(p, i, y, i);
    if i < y {
      var next := i + 2;
      assert PartAt(p, i, y, next);
      forall z ensures PartAt(p, next, y, z) { assert PartAt(p, i, y, z); }
      ChainTo(p, next, y);
    }
  }

  // ---- Which dots are blank ----

  lemma BlankOnce(c: Context, sig: seq<Token>, env: Env, k: int, n: nat)
    requires Fine(sig) && n < |sig| && Blank(sig, Run(c, sig, env, n), k)
    ensures Blank(sig, Run(c, sig, env, n + 1), k)
  {
    RunTracks(c, sig, env, n);
    RunStep(c, sig, env, n);
    BlankStays(c, sig, Run(c, sig, env, n), env, FromAt(c, sig, env, n), n, k);
  }

  lemma {:induction false} BlankKept(c: Context, sig: seq<Token>, env: Env, k: int, m: nat, n: nat)
    requires Fine(sig) && m <= n <= |sig| && Blank(sig, Run(c, sig, env, m), k)
    ensures Blank(sig, Run(c, sig, env, n), k)
    decreases n
  {
    if m < n {
      BlankKept(c, sig, env, k, m, n - 1);
      BlankOnce(c, sig, env, k, n - 1);
    }
  }

  // The first visit blanks the dots behind the stripped parts among its schemas.
  lemma FirstBlanks(c: Context, sig: seq<Token>, env: Env, h: nat, x: int, n: nat)
    requires Fine(sig) && h < n <= |sig| && IdentAt(sig, h) && Head(sig, h) == h && !First(c, sig, env, h).Skip?
    requires StrippedPart(c, sig, h, x) && x <= Schemas(c, sig, env, h)
    ensures Blank(sig, Run(c, sig, env, n), x + 1)
  {
    FirstBlanksNow(c, sig, env, h, x);
    BlankKept(c, sig, env, x + 1, h + 1, n);
  }

  lemma FirstBlanksNow(c: Context, sig: seq<Token>, env: Env, h: nat, x: int)
    requires Fine(sig) && h < |sig| && IdentAt(sig, h) && Head(sig, h) == h && !First(c, sig, env, h).Skip?
    requires StrippedPart(c, sig, h, x) && x <= Schemas(c, sig, env, h)
    ensures Blank(sig, Run(c, sig, env, h + 1), x + 1)
  {
    SchemaDot(c, sig, env, h, x);
    FirstVisit(c, sig, env, h, x + 1);
  }

  lemma SchemaDot(c: Context, sig: seq<Token>, env: Env, h: nat, x: int)
    requires Fine(sig) && h < |sig| && IdentAt(sig, h) && Head(sig, h) == h && !First(c, sig, env, h).Skip?
    requires Part(sig, h, x) && x <= Schemas(c, sig, env, h)
    ensures h <= x < ChainEnd(sig, h) && (x - h) % 2 == 0 && Is(sig, x + 1, DOT) && Head(sig, x + 1) == h
  {
    PartRange(sig, h, x);
    SchemaEndBelow(c, sig, env, FromAt(c, sig, env, h), h);
    PartAtOffset(sig, h, x);
  }

  // A dot behind a part that is not stripped is never blank.
  lemma DotStays(c: Context, sig: seq<Token>, env: Env, n: nat, z: int)
    requires Fine(sig) && n <= |sig| && Is(sig, z + 1, DOT) && IdentAt(sig, z) && !Stripped(c, sig[z].name)
    ensures Is(Run(c, sig, env, n), z + 1, DOT)
  {
    RunTracks(c, sig, env, n);
    assert Outcome(c, sig, Run(c, sig, env, n), z + 1);
    NotBoth(sig, z + 1);
  }

  // ---- An unspared schema comes back ----

  lemma PartBetween(c: Context, sig: seq<Token>, env: Env, h: nat, x: int, y: int, n: nat, z: int)
    requires Fine(sig) && n <= |sig| && IdentAt(sig, h) && Head(sig, h) == h && Consecutive(c, sig, h, x, y)
             && (y - x) % 2 == 0
    ensures PartAt(Run(c, sig, env, n), x + 2, y, z)
  {
    if x + 2 <= z <= y && (z - (x + 2)) % 2 == 0 {
      PartRange(sig, h, y);
      PartOffset(sig, h, x, z);
      RunTracks(c, sig, env, n);
      assert Outcome(c, sig, Run(c, sig, env, n), z);
      if z < y {
        assert !StrippedPart(c, sig, h, z);
        DotStays(c, sig, env, n, z);
      }
    }
  }

  lemma Apart(sig: seq<Token>, h: nat, x: int, y: int)
    requires Fine(sig) && Part(sig, h, x) && Part(sig, h, y) && x < y
    ensures x + 2 <= y && (y - x) % 2 == 0 && (y - (x + 2)) % 2 == 0
  {
    SameParity(sig, h, x, y);
    EvenDistance(2, y - x);
  }

  // Just before the part behind x is visited, its chain ends at y.
  lemma ChainEndsAt(c: Context, sig: seq<Token>, env: Env, h: nat, x: int, y: int)
    requires Fine(sig) && IdentAt(sig, h) && Head(sig, h) == h && !First(c, sig, env, h).Skip?
    requires Consecutive(c, sig, h, x, y) && y <= Schemas(c, sig, env, h)
    ensures x + 2 <= y && (y - x) % 2 == 0
    ensures var p := Run(c, sig, env, x + 2);
            IdentAt(p, x + 2) && ChainEnd(p, x + 2) == y && Blank(sig, p, x + 1) && Blank(sig, p, y + 1)
  {
    var i, p := x + 2, Run(c, sig, env, x + 2);
    Apart(sig, h, x, y);
    FirstBlanks(c, sig, env, h, x, i);
    FirstBlanks(c, sig, env, h, y, i);
    forall z ensures PartAt(p, i, y, z) { PartBetween(c, sig, env, h, x, y, i, z); }
    ChainTo(p, i, y);
  }

  lemma Rewrites(c: Context, sig: seq<Token>, p: seq<Token>, env: Env, from: bool, x: int, y: int)
    requires Fine(sig) && Tracks(c, sig, p) && !Spares(c, sig, env, x, y) && 0 <= x && IdentAt(p, x + 2)
             && ChainEnd(p, x + 2) == y
    requires Blank(sig, p, x + 1) && Blank(sig, p, y + 1)
    ensures Visit(c, p, env, from, x + 2)[y].text == Quote(c.u.upper(sig[y].name))
  {
    assert Outcome(c, sig, p, y) && Outcome(c, sig, p, x + 2);
    NotLiteral(c, sig, p, y + 1);
    assert TreatmentAt(c, p, env, from, x + 2) == Names(SchemaEnd(c, p, env, from, x + 2, y));
    SchemaEndBelow(c, p, env, from, x + 2);
    Visited(c, p, env, from, x + 2, y);
  }

  lemma NotLiteral(c: Context, sig: seq<Token>, p: seq<Token>, k: int)
    requires Fine(sig) && Tracks(c, sig, p) && Blank(sig, p, k)
    ensures !LiteralAt(p, k)
  {
    assert Outcome(c, sig, p, k) && FineAt(sig, k);
  }

  lemma StaysOnce(c: Context, sig: seq<Token>, env: Env, h: nat, x: int, y: int, n: nat, next: nat)
    requires Fine(sig) && 0 <= x && Consecutive(c, sig, h, x, y) && x + 2 < n < |sig| && next == n + 1
    ensures Run(c, sig, env, next)[y] == Run(c, sig, env, n)[y]
  {
    RunStep(c, sig, env, n);
    NoVisitBetween(c, sig, env, h, x, y, n);
  }

  // Between x and y no part is visited, and behind y nothing reaches back.
  lemma {:induction false} StaysRewritten(c: Context, sig: seq<Token>, env: Env, h: nat, x: int, y: int, m: nat, n: nat)
    requires Fine(sig) && 0 <= x && Consecutive(c, sig, h, x, y) && x + 2 < m <= n <= |sig|
    ensures Run(c, sig, env, n)[y] == Run(c, sig, env, m)[y]
    decreases n
  {
    if m < n {
      var before := n - 1;
      StaysRewritten(c, sig, env, h, x, y, m, before);
      StaysOnce(c, sig, env, h, x, y, before, n);
    }
  }

  // A visit that changes a part behind the first one begins behind a stripped part whose dot is blank.
  lemma BeginsBehind(c: Context, sig: seq<Token>, p: seq<Token>, env: Env, from: bool, h: nat, i: nat, k: int)
    requires Fine(sig) && Tracks(c, sig, p) && h < i < |sig| && 0 <= k < |sig| && Head(sig, k) == h
    requires Visit(c, p, env, from, i)[k] != p[k]
    ensures !TreatmentAt(c, p, env, from, i).Skip? && IdentAt(p, i) && i <= k <= ChainEnd(p, i) && Part(sig, h, i)
    ensures StrippedPart(c, sig, h, i - 2) && Blank(sig, p, i - 1)
  {
    VisitStaysInName(c, sig, p, env, from, i, k);
    assert Outcome(c, sig, p, i);
    VisitedAlone(c, sig, p, env, from, i);
    StrippedBefore(c, sig, p, h, i);
  }

  lemma StrippedBefore(c: Context, sig: seq<Token>, p: seq<Token>, h: nat, i: nat)
    requires Fine(sig) && Tracks(c, sig, p) && h < i < |sig| && Part(sig, h, i) && Blank(sig, p, i - 1)
    ensures StrippedPart(c, sig, h, i - 2)
  {
    DotFollowsName(c, sig, p, i - 1);
    assert FineAt(sig, i);
  }

  lemma NoVisitBetween(c: Context, sig: seq<Token>, env: Env, h: nat, x: int, y: int, i: nat)
    requires Fine(sig) && 0 <= x && Consecutive(c, sig, h, x, y) && x + 2 < i < |sig|
    ensures var p := Run(c, sig, env, i); Visit(c, p, env, FromAt(c, sig, env, i), i)[y] == p[y]
  {
    RunTracks(c, sig, env, i);
    if Visit(c, Run(c, sig, env, i), env, FromAt(c, sig, env, i), i)[y] != Run(c, sig, env, i)[y] {
      BeginsBehind(c, sig, Run(c, sig, env, i), env, FromAt(c, sig, env, i), h, i, y);
    }
  }

  lemma Resurrected(c: Context, sig: seq<Token>, env: Env, h: nat, x: int, y: int)
    requires Fine(sig) && IdentAt(sig, h) && Head(sig, h) == h && !First(c, sig, env, h).Skip?
    requires Consecutive(c, sig, h, x, y) && y <= Schemas(c, sig, env, h) && !Spares(c, sig, env, x, y)
    ensures !Intact(sig, Run(c, sig, env, |sig|), h)
  {
    ComesBack(c, sig, env, h, x, y);
    StaysRewritten(c, sig, env, h, x, y, x + 3, |sig|);
    assert Run(c, sig, env, |sig|)[y].text != [];
    assert Part(sig, h, y);
  }

  // The visit behind x writes y back; the dot of y is gone then and ever after.
  lemma ComesBack(c: Context, sig: seq<Token>, env: Env, h: nat, x: int, y: int)
    requires Fine(sig) && IdentAt(sig, h) && Head(sig, h) == h && !First(c, sig, env, h).Skip?
    requires Consecutive(c, sig, h, x, y) && y <= Schemas(c, sig, env, h) && !Spares(c, sig, env, x, y)
    ensures 0 <= x && x + 2 <= y < |sig| && Run(c, sig, env, x + 3)[y].text == Quote(c.u.upper(sig[y].name))
    ensures Blank(sig, Run(c, sig, env, |sig|), y + 1)
  {
    ChainEndsAt(c, sig, env, h, x, y);
    RunTracks(c, sig, env, x + 2);
    RunStep(c, sig, env, x + 2);
    Rewrites(c, sig, Run(c, sig, env, x + 2), env, FromAt(c, sig, env, x + 2), x, y);
    BlankKept(c, sig, env, y + 1, x + 2, |sig|);
  }

  // ---- Spared schemas stay gone ----

  // The dots behind the stripped parts among the schemas of the first visit are blank.
  ghost predicate SchemasGone(c: Context, sig: seq<Token>, p: seq<Token>, h: int, last: int) {
    forall x :: StrippedPart(c, sig, h, x) && x <= last ==> Blank(sig, p, x + 1)
  }

  ghost predicate Behind(c: Context, sig: seq<Token>, h: int, last: int, n: int) {
    forall x :: StrippedPart(c, sig, h, x) && x <= last ==> x + 2 < n
  }

  // Before visit n, where last is the last schema of the first visit and end the last part: of the parts
  // behind the schemas only the last but one can lose its dot, in a visit behind all stripped schemas.
  ghost predicate Beyond(c: Context, sig: seq<Token>, p: seq<Token>, h: int, last: int, end: int, n: int, k: int) {
    Part(sig, h, k) && Blank(sig, p, k + 1) && k > last ==>
      h <= last == end - 4 && k == end - 2 && Behind(c, sig, h, last, n)
  }

  // And a part whose dot is blank is empty.
  ghost predicate Settled(c: Context, sig: seq<Token>, p: seq<Token>, h: int, last: int, end: int, n: int, k: int)
    requires |p| == |sig|
  {
    Beyond(c, sig, p, h, last, end, n, k) && (Part(sig, h, k) && Blank(sig, p, k + 1) ==> p[k].text == [])
  }

  // A visit blanks only dots that have two more parts of its chain behind them.
  lemma BlankedWithin(c: Context, sig: seq<Token>, p: seq<Token>, env: Env, from: bool, i: nat, k: int)
    requires Fine(sig) && Tracks(c, sig, p) && i < |p| && !TreatmentAt(c, p, env, from, i).Skip?
    requires Is(sig, k, DOT) && !Blank(sig, p, k) && Blank(sig, Visit(c, p, env, from, i), k)
    ensures i < k <= ChainEnd(p, i) - 1
  {
    NotBoth(sig, k);
    assert Outcome(c, sig, p, k);
    Visited(c, p, env, from, i, k);
    PartsOf(p, i, k);
  }

  // No chain reaches behind the end of its name.
  lemma EndBelow(c: Context, sig: seq<Token>, p: seq<Token>, h: nat, i: nat)
    requires Fine(sig) && Tracks(c, sig, p) && IdentAt(sig, h) && Head(sig, h) == h && Part(sig, h, i) && IdentAt(p, i)
    ensures ChainEnd(p, i) <= ChainEnd(sig, h)
  {
    Links(c, sig, p);
    forall m ensures PartAt(p, i, ChainEnd(p, i), m) { PartsOf(p, i, m); }
    ChainHead(sig, p, i, ChainEnd(p, i), ChainEnd(p, i));
    assert Outcome(c, sig, p, ChainEnd(p, i));
    PartRange(sig, h, ChainEnd(p, i));
  }

  // A chain contains no blank dot.
  lemma NoBlankInside(sig: seq<Token>, p: seq<Token>, i: int, reach: int, x: int)
    requires PartAt(p, i, reach, x) && Blank(sig, p, x + 1) && (x - i) % 2 == 0
    ensures x < i || x >= reach
  {}

  // A chain that reaches behind the schemas begins behind every stripped one of them.
  lemma BehindNow(c: Context, sig: seq<Token>, p: seq<Token>, h: nat, last: int, i: nat, x: int)
    requires Fine(sig) && IdentAt(sig, h) && Head(sig, h) == h && IdentAt(p, i) && Part(sig, h, i)
    requires StrippedPart(c, sig, h, x) && x <= last < ChainEnd(p, i) && Blank(sig, p, x + 1)
    ensures x + 2 < i + 1
  {
    SameParity(sig, h, i, x);
    PartsOf(p, i, x);
    NoBlankInside(sig, p, i, ChainEnd(p, i), x);
  }

  lemma NoOddGap(sig: seq<Token>, h: nat, k: int)
    requires Fine(sig) && IdentAt(sig, h) && Part(sig, h, k)
    ensures k != ChainEnd(sig, h) - 3
  {
    PartEven(sig, h, k);
    EvenDistance(k - h, ChainEnd(sig, h) - h);
  }

  // Which dots a later visit blanks.
  lemma BlankedLater(c: Context, sig: seq<Token>, p: seq<Token>, env: Env, from: bool, h: nat, last: int, end: int,
      i: nat, k: int)
    requires Fine(sig) && Tracks(c, sig, p) && IdentAt(sig, h) && Head(sig, h) == h && h < i < |sig|
    requires end == ChainEnd(sig, h) && last in {end - 2, end - 4, h - 2} && SchemasGone(c, sig, p, h, last)
    requires forall j :: Beyond(c, sig, p, h, last, end, i, j)
    requires Part(sig, h, k) && !Blank(sig, p, k + 1) && Blank(sig, Visit(c, p, env, from, i), k + 1)
    ensures Beyond(c, sig, Visit(c, p, env, from, i), h, last, end, i + 1, k)
    ensures Visit(c, p, env, from, i)[k].text == []
  {
    BlankedByVisit(c, sig, p, env, from, i, k + 1);
    if k > last {
      BlankedFrom(c, sig, p, env, from, h, i, k);
      EndBelow(c, sig, p, h, i);
      BeyondSchemas(c, sig, p, h, last, end, i, k);
    }
  }

  lemma BlankedFrom(c: Context, sig: seq<Token>, p: seq<Token>, env: Env, from: bool, h: nat, i: nat, k: int)
    requires Fine(sig) && Tracks(c, sig, p) && h < i < |sig|
    requires Part(sig, h, k) && !Blank(sig, p, k + 1) && Blank(sig, Visit(c, p, env, from, i), k + 1)
    ensures IdentAt(p, i) && Part(sig, h, i) && StrippedPart(c, sig, h, i - 2) && Blank(sig, p, i - 1)
    ensures i <= k <= ChainEnd(p, i) - 2
  {
    HeadOfNameDot(sig, k + 1);
    BeginsBehind(c, sig, p, env, from, h, i, k + 1);
    BlankedWithin(c, sig, p, env, from, i, k + 1);
  }

  lemma BeyondSchemas(c: Context, sig: seq<Token>, p: seq<Token>, h: nat, last: int, end: int, i: nat, k: int)
    requires Fine(sig) && |p| == |sig| && IdentAt(sig, h) && Head(sig, h) == h && IdentAt(p, i) && Part(sig, h, i)
    requires end == ChainEnd(sig, h) && last in {end - 2, end - 4, h - 2} && SchemasGone(c, sig, p, h, last)
    requires Beyond(c, sig, p, h, last, end, i, i - 2) && StrippedPart(c, sig, h, i - 2) && Blank(sig, p, i - 1)
    requires Part(sig, h, k) && last < k && i <= k <= ChainEnd(p, i) - 2 && ChainEnd(p, i) <= end
    ensures h <= last == end - 4 && k == end - 2 && Behind(c, sig, h, last, i + 1)
  {
    NoOddGap(sig, h, k);
    forall x | StrippedPart(c, sig, h, x) && x <= last ensures x + 2 < i + 1 { BehindNow(c, sig, p, h, last, i, x); }
  }

  // A part whose dot is blank already is not rewritten by a later visit.
  lemma NotRewritten(c: Context, sig: seq<Token>, p: seq<Token>, env: Env, from: bool, h: nat, last: int, end: int,
      i: nat, k: int)
    requires Fine(sig) && Tracks(c, sig, p) && IdentAt(sig, h) && Head(sig, h) == h && h < i < |sig|
    requires end == ChainEnd(sig, h) && SchemasGone(c, sig, p, h, last)
    requires forall x, y :: Consecutive(c, sig, h, x, y) && y <= last ==> Spares(c, sig, env, x, y)
    requires forall j :: Settled(c, sig, p, h, last, end, i, j)
    requires Part(sig, h, k) && Blank(sig, p, k + 1)
    ensures Visit(c, p, env, from, i)[k] == p[k]
  {
    if Visit(c, p, env, from, i)[k] != p[k] {
      BeginsBehind(c, sig, p, env, from, h, i, k);
      assert Settled(c, sig, p, h, last, end, i, i - 2) && Settled(c, sig, p, h, last, end, i, k);
      AmongSchemas(c, sig, p, h, last, end, i, k);
      NextStripped(c, sig, p, h, last, i, k);
      Spared(c, sig, p, env, from, i, k);
    }
  }

  // The part at the end of the chain is the next stripped one.
  lemma NextStripped(c: Context, sig: seq<Token>, p: seq<Token>, h: nat, last: int, i: nat, k: int)
    requires Fine(sig) && Tracks(c, sig, p) && IdentAt(sig, h) && Head(sig, h) == h
    requires SchemasGone(c, sig, p, h, last) && StrippedPart(c, sig, h, i - 2) && IdentAt(p, i)
    requires Part(sig, h, i) && Part(sig, h, k) && Blank(sig, p, k + 1) && i <= k <= ChainEnd(p, i) && k <= last
    ensures ChainEnd(p, i) == k && Consecutive(c, sig, h, i - 2, k)
  {
    ChainStops(sig, p, h, i, k);
    AllBetween(c, sig, p, h, last, i);
    DotFollowsName(c, sig, p, k + 1);
  }

  lemma ChainStops(sig: seq<Token>, p: seq<Token>, h: nat, i: nat, k: int)
    requires Fine(sig) && IdentAt(p, i) && Part(sig, h, i) && Part(sig, h, k) && i <= k <= ChainEnd(p, i)
             && Blank(sig, p, k + 1)
    ensures ChainEnd(p, i) == k
  {
    SameParity(sig, h, i, k);
    PartsOf(p, i, k);
  }

  lemma AmongSchemas(c: Context, sig: seq<Token>, p: seq<Token>, h: nat, last: int, end: int, i: nat, k: int)
    requires |p| == |sig| && Settled(c, sig, p, h, last, end, i, i - 2) && Settled(c, sig, p, h, last, end, i, k)
    requires StrippedPart(c, sig, h, i - 2) && Blank(sig, p, i - 1) && Part(sig, h, k) && Blank(sig, p, k + 1) && i <= k
    ensures k <= last
  {}

  // Inside a chain no part is stripped, and none lies between it and the part before it.
  lemma NotBetween(c: Context, sig: seq<Token>, p: seq<Token>, h: nat, last: int, i: nat, reach: int, z: int)
    requires i - 2 < z < reach <= last && (z - i) % 2 == 0 && PartAt(p, i, reach, z)
    requires StrippedPart(c, sig, h, z) ==> Blank(sig, p, z + 1)
    ensures !StrippedPart(c, sig, h, z)
  {
    if StrippedPart(c, sig, h, z) { NoBlankInside(sig, p, i, reach, z); }
  }

  lemma AllBetween(c: Context, sig: seq<Token>, p: seq<Token>, h: nat, last: int, i: nat)
    requires Fine(sig) && IdentAt(sig, h) && Head(sig, h) == h && IdentAt(p, i) && Part(sig, h, i)
    requires ChainEnd(p, i) <= last && SchemasGone(c, sig, p, h, last)
    ensures forall z :: i - 2 < z < ChainEnd(p, i) ==> !StrippedPart(c, sig, h, z)
  {
    forall z | i - 2 < z < ChainEnd(p, i) ensures !StrippedPart(c, sig, h, z) {
      if StrippedPart(c, sig, h, z) {
        SameParity(sig, h, i, z);
        PartsOf(p, i, z);
        NotBetween(c, sig, p, h, last, i, ChainEnd(p, i), z);
      }
    }
  }

  lemma Spared(c: Context, sig: seq<Token>, p: seq<Token>, env: Env, from: bool, i: nat, k: int)
    requires Fine(sig) && Tracks(c, sig, p) && i >= 2 && IdentAt(p, i) && ChainEnd(p, i) == k && Blank(sig, p, k + 1)
    requires Spares(c, sig, env, i - 2, k)
    ensures TreatmentAt(c, p, env, from, i).Skip?
  {
    assert Outcome(c, sig, p, k);
  }

  lemma SettledFirst(c: Context, sig: seq<Token>, env: Env, h: nat, k: int)
    requires Fine(sig) && IdentAt(sig, h) && Head(sig, h) == h && !First(c, sig, env, h).Skip?
    ensures Settled(c, sig, Run(c, sig, env, h + 1), h, Schemas(c, sig, env, h), ChainEnd(sig, h), h + 1, k)
  {
    if Part(sig, h, k) && Blank(sig, Run(c, sig, env, h + 1), k + 1) {
      PartRange(sig, h, k);
      FirstBlanked(c, sig, env, h, k);
      HeadOfNameDot(sig, k + 1);
      FirstVisit(c, sig, env, h, k + 1);
    }
  }

  // What the first visit blanks is the dot of a part it empties.
  lemma FirstBlanked(c: Context, sig: seq<Token>, env: Env, h: nat, k: int)
    requires Fine(sig) && IdentAt(sig, h) && Head(sig, h) == h && !First(c, sig, env, h).Skip?
    requires Part(sig, h, k) && Blank(sig, Run(c, sig, env, h + 1), k + 1)
    ensures Run(c, sig, env, h + 1)[k].text == []
  {
    HeadOfNameDot(sig, k + 1);
    LaterUntouched(c, sig, env, h, k + 1);
    RunTracks(c, sig, env, h);
    RunStep(c, sig, env, h);
    BlankedByVisit(c, sig, Run(c, sig, env, h), env, FromAt(c, sig, env, h), h, k + 1);
  }

  lemma SchemasShape(c: Context, sig: seq<Token>, env: Env, h: nat)
    requires IdentAt(sig, h) && !First(c, sig, env, h).Skip?
    ensures var end := ChainEnd(sig, h); Schemas(c, sig, env, h) in {end - 2, end - 4, h - 2}
  {}

  lemma SettledStep(c: Context, sig: seq<Token>, p: seq<Token>, env: Env, from: bool, h: nat, last: int, end: int,
      i: nat, k: int)
    requires Fine(sig) && Tracks(c, sig, p) && IdentAt(sig, h) && Head(sig, h) == h && h < i < |sig|
    requires end == ChainEnd(sig, h) && last in {end - 2, end - 4, h - 2} && SchemasGone(c, sig, p, h, last)
    requires forall x, y :: Consecutive(c, sig, h, x, y) && y <= last ==> Spares(c, sig, env, x, y)
    requires forall j :: Settled(c, sig, p, h, last, end, i, j)
    ensures Settled(c, sig, Visit(c, p, env, from, i), h, last, end, i + 1, k)
  {
    if Part(sig, h, k) && Blank(sig, Visit(c, p, env, from, i), k + 1) {
      if Blank(sig, p, k + 1) {
        NotRewritten(c, sig, p, env, from, h, last, end, i, k);
        assert Settled(c, sig, p, h, last, end, i, k);
      } else {
        forall j ensures Beyond(c, sig, p, h, last, end, i, j) { assert Settled(c, sig, p, h, last, end, i, j); }
        BlankedLater(c, sig, p, env, from, h, last, end, i, k);
      }
    }
  }

  lemma {:induction false} SettledRun(c: Context, sig: seq<Token>, env: Env, h: nat, n: nat)
    requires Fine(sig) && IdentAt(sig, h) && Head(sig, h) == h && !First(c, sig, env, h).Skip? && h < n <= |sig|
    requires Safe(c, sig, env, h)
    ensures forall k :: Settled(c, sig, Run(c, sig, env, n), h, Schemas(c, sig, env, h), ChainEnd(sig, h), n, k)
  {
    if n == h + 1 {
      forall k ensures Settled(c, sig, Run(c, sig, env, n), h, Schemas(c, sig, env, h), ChainEnd(sig, h), n, k) {
        SettledFirst(c, sig, env, h, k);
      }
    } else {
      SettledRun(c, sig, env, h, n - 1);
      SettledNext(c, sig, env, h, Schemas(c, sig, env, h), ChainEnd(sig, h), n - 1, n);
    }
  }

  lemma GoneAfterFirst(c: Context, sig: seq<Token>, env: Env, h: nat, n: nat)
    requires Fine(sig) && IdentAt(sig, h) && Head(sig, h) == h && !First(c, sig, env, h).Skip? && h < n <= |sig|
    ensures SchemasGone(c, sig, Run(c, sig, env, n), h, Schemas(c, sig, env, h))
  {
    forall x | StrippedPart(c, sig, h, x) && x <= Schemas(c, sig, env, h)
      ensures Blank(sig, Run(c, sig, env, n), x + 1) {
      FirstBlanks(c, sig, env, h, x, n);
    }
  }

  lemma SettledNext(c: Context, sig: seq<Token>, env: Env, h: nat, last: int, end: int, n: nat, next: nat)
    requires next == n + 1 && Fine(sig) && IdentAt(sig, h) && Head(sig, h) == h && !First(c, sig, env, h).Skip?
             && h < n < |sig|
    requires last == Schemas(c, sig, env, h) && end == ChainEnd(sig, h)
    requires forall x, y :: Consecutive(c, sig, h, x, y) && y <= last ==> Spares(c, sig, env, x, y)
    requires forall k :: Settled(c, sig, Run(c, sig, env, n), h, last, end, n, k)
    ensures forall k :: Settled(c, sig, Run(c, sig, env, next), h, last, end, next, k)
  {
    RunTracks(c, sig, env, n);
    RunStep(c, sig, env, n);
    SchemasShape(c, sig, env, h);
    GoneAfterFirst(c, sig, env, h, n);
    forall k ensures Settled(c, sig, Run(c, sig, env, next), h, last, end, next, k) {
      SettledStep(c, sig, Run(c, sig, env, n), env, FromAt(c, sig, env, n), h, last, end, n, k);
    }
  }

  lemma SafeIsIntact(c: Context, sig: seq<Token>, env: Env, h: nat)
    requires Fine(sig) && IdentAt(sig, h) && Head(sig, h) == h && Safe(c, sig, env, h)
    ensures Intact(sig, Run(c, sig, env, |sig|), h)
  {
    var p := Run(c, sig, env, |sig|);
    if First(c, sig, env, h).Skip? {
      SkippedNameStays(c, sig, env, h, |sig|);
      forall k | Part(sig, h, k) ensures !Blank(sig, p, k + 1) {
        if Is(sig, k + 1, DOT) { HeadOfNameDot(sig, k + 1); }
        assert UntouchedAt(sig, p, h, k + 1);
      }
    } else {
      SettledRun(c, sig, env, h, |sig|);
      forall k | Part(sig, h, k) && Blank(sig, p, k + 1) ensures p[k].text == [] {
        assert Settled(c, sig, p, h, Schemas(c, sig, env, h), ChainEnd(sig, h), |sig|, k);
      }
    }
  }

  // ---- Exactly when ----

  // Over the whole rewriting the dots of a name disappear only together with the schemas in front of them
  // if and only if every two neighbouring schemas that its first visit strips are spared. What is stripped,
  // preserved or reserved can be read off the lexed text before anything is rewritten.
  lemma DotsGoWithSchemasExactly(c: Context, sig: seq<Token>, env: Env, h: nat)
    requires Fine(sig) && IdentAt(sig, h) && Head(sig, h) == h
    ensures Intact(sig, Run(c, sig, env, |sig|), h) <==> Safe(c, sig, env, h)
  {
    if Safe(c, sig, env, h) {
      SafeIsIntact(c, sig, env, h);
    } else {
      var x, y :| Consecutive(c, sig, h, x, y) && y <= Schemas(c, sig, env, h) && !Spares(c, sig, env, x, y);
      Resurrected(c, sig, env, h, x, y);
    }
  }

  // In particular a name with at most one stripped part loses its dot only together with that part.
  lemma OneSchemaIsSafe(c: Context, sig: seq<Token>, env: Env, h: nat)
    requires IdentAt(sig, h)
    requires forall x, y :: StrippedPart(c, sig, h, x) && StrippedPart(c, sig, h, y) ==> x == y
    ensures Safe(c, sig, env, h)
  {}
}
