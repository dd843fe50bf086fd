// When the lexer of datamigrate/oscar_view.go reads a token again in another text.
module ViewRelex {
  import opened Wrappers
  import opened Encoding
  import opened StringLiterals
  import opened ViewLexer

  // The next n bytes are the same.
  ghost predicate Same(s: Text, i: nat, t: Text, j: nat, n: nat): (same: bool)
    ensures same ==> i + n <= |s| && j + n <= |t|
    decreases n
  {
    if n == 0 then i <= |s| && j <= |t|
    else i < |s| && j < |t| && s[i] == t[j] && Same(s, i + 1, t, j + 1, n - 1)
  }

  lemma {:induction false} SameAt(s: Text, i: nat, t: Text, j: nat, n: nat, k: nat)
    requires Same(s, i, t, j, n) && k < n
    ensures s[i + k] == t[j + k]
    decreases n
  {
    if k > 0 { SameAt(s, i + 1, t, j + 1, n - 1, k - 1); }
  }

  lemma {:induction false} SameFrom(s: Text, i: nat, t: Text, j: nat, n: nat, k: nat)
    requires Same(s, i, t, j, n) && k <= n
    ensures Same(s, i + k, t, j + k, n - k)
    decreases n
  {
    if k > 0 { SameFrom(s, i + 1, t, j + 1, n - 1, k - 1); }
  }

  lemma {:induction false} SameUpTo(s: Text, i: nat, t: Text, j: nat, n: nat, k: nat)
    requires Same(s, i, t, j, n) && k <= n
    ensures Same(s, i, t, j, k)
    decreases n
  {
    if k > 0 { SameUpTo(s, i + 1, t, j + 1, n - 1, k - 1); }
  }

  lemma SameToSlices(s: Text, i: nat, t: Text, j: nat, n: nat)
    requires Same(s, i, t, j, n)
    ensures s[i..i + n] == t[j..j + n]
  {
    var a, b := s[i..i + n], t[j..j + n];
    forall k | 0 <= k < n ensures a[k] == b[k] { SameAt(s, i, t, j, n, k); }
  }

  lemma {:induction false} SlicesToSame(s: Text, i: nat, t: Text, j: nat, n: nat)
    requires i + n <= |s| && j + n <= |t| && s[i..i + n] == t[j..j + n]
    ensures Same(s, i, t, j, n)
    decreases n
  {
    if n > 0 {
      assert s[i] == s[i..i + n][0] && t[j] == t[j..j + n][0];
      assert s[i + 1..i + n] == s[i..i + n][1..] && t[j + 1..j + n] == t[j..j + n][1..];
      SlicesToSame(s, i + 1, t, j + 1, n - 1);
    }
  }

  lemma SameSlices(s: Text, i: nat, t: Text, j: nat, n: nat)
    requires i + n <= |s| && j + n <= |t|
    ensures Same(s, i, t, j, n) <==> s[i..i + n] == t[j..j + n]
  {
    if Same(s, i, t, j, n) { SameToSlices(s, i, t, j, n); }
    if s[i..i + n] == t[j..j + n] { SlicesToSame(s, i, t, j, n); }
  }

  // ---- The scanning functions ----

  lemma DecodeWithin(s: Text, i: nat, t: Text, j: nat)
    requires i < |s| && j < |t| && Encoded(s, i) && Same(s, i, t, j, Need(s[i]))
    ensures Encoded(t, j) && Decode(t, j) == Decode(s, i)
  {
    var n := Need(s[i]);
    SameAt(s, i, t, j, n, 0);
    SameAt(s, i, t, j, n, 1);
    if n > 2 { SameAt(s, i, t, j, n, 2); }
    if n > 3 { SameAt(s, i, t, j, n, 3); }
  }

  lemma {:induction false} SpanSame(s: Text, i: nat, t: Text, j: nat, n: nat, c: Class)
    requires Same(s, i, t, j, n) && SpanEnd(s, i, c) == i + n && (j + n == |t| || !In(c, t[j + n]))
    ensures SpanEnd(t, j, c) == j + n
    decreases n
  {
    if n > 0 {
      SameAt(s, i, t, j, n, 0);
      SameFrom(s, i, t, j, n, 1);
      SpanSame(s, i + 1, t, j + 1, n - 1, c);
    }
  }

  lemma {:induction false} CommentLong(s: Text, i: nat, depth: nat)
    requires i <= |s| && depth > 0 && CommentEnd(s, i, depth).Some?
    ensures CommentEnd(s, i, depth).value >= i + 2
    decreases |s| - i
  {
    if At(s, i, SLASH, STAR) {
    } else if !At(s, i, STAR, SLASH) {
      CommentLong(s, i + 1, depth);
    }
  }

  lemma {:induction false} CommentSame(s: Text, i: nat, t: Text, j: nat, n: nat, depth: nat)
    requires Same(s, i, t, j, n) && CommentEnd(s, i, depth) == Some(i + n)
    ensures CommentEnd(t, j, depth) == Some(j + n)
    decreases n
  {
    if depth > 0 {
      CommentLong(s, i, depth);
      SameAt(s, i, t, j, n, 0);
      SameAt(s, i, t, j, n, 1);
      var step := if At(s, i, SLASH, STAR) || At(s, i, STAR, SLASH) then 2 else 1;
      SameFrom(s, i, t, j, n, step);
      CommentSame(s, i + step, t, j + step, n - step,
        if At(s, i, SLASH, STAR) then depth + 1 else if At(s, i, STAR, SLASH) then depth - 1 else depth);
    }
  }

  lemma OccursSame(s: Text, i: nat, t: Text, j: nat, n: nat, k: nat, pattern: Text)
    requires Same(s, i, t, j, n) && k + |pattern| <= n
    ensures Occurs(s, i + k, pattern) <==> Occurs(t, j + k, pattern)
  {
    SameFrom(s, i, t, j, n, k);
    SameUpTo(s, i + k, t, j + k, n - k, |pattern|);
    SameSlices(s, i + k, t, j + k, |pattern|);
  }

  lemma IndexSame(s: Text, i: nat, t: Text, j: nat, m: nat, pattern: Text)
    requires Same(s, i, t, j, m + |pattern|) && Index(s, i, pattern) == Some(i + m)
    ensures Index(t, j, pattern) == Some(j + m)
  {
    OccursSame(s, i, t, j, m + |pattern|, m, pattern);
    forall k: nat | j <= k < j + m ensures !Occurs(t, k, pattern) {
      NotEarlier(s, i, t, j, m, k - j, pattern);
    }
    FirstIs(t, j, pattern, j + m);
  }

  lemma NotEarlier(s: Text, i: nat, t: Text, j: nat, m: nat, k: nat, pattern: Text)
    requires Same(s, i, t, j, m + |pattern|) && Index(s, i, pattern) == Some(i + m) && k < m
    ensures !Occurs(t, j + k, pattern)
  {
    OccursSame(s, i, t, j, m + |pattern|, k, pattern);
    if Occurs(s, i + k, pattern) { assert false; }
  }

  lemma {:induction false} FirstIs(t: Text, j: nat, pattern: Text, at: nat)
    requires j <= at <= |t| && Occurs(t, at, pattern)
    requires forall k: nat :: j <= k < at ==> !Occurs(t, k, pattern)
    ensures Index(t, j, pattern) == Some(at)
    decreases at - j
  {
    if j < at { FirstIs(t, j + 1, pattern, at); }
  }

  lemma {:induction false} StringStops(s: Text, i: nat, escaped: bool)
    requires i <= |s| && StringEnd(s, i, escaped).Some?
    ensures var end := StringEnd(s, i, escaped).value; end == |s| || s[end] != QUOTE
    decreases |s| - i
  {
    if escaped && s[i] == BACKSLASH && i + 1 < |s| {
      StringStops(s, i + 2, escaped);
    } else if s[i] != QUOTE {
      StringStops(s, i + 1, escaped);
    } else if At(s, i, QUOTE, QUOTE) {
      StringStops(s, i + 2, escaped);
    }
  }

  lemma {:induction false} StringSame(s: Text, i: nat, t: Text, j: nat, n: nat, escaped: bool)
    requires Same(s, i, t, j, n) && StringEnd(s, i, escaped) == Some(i + n) && (j + n == |t| || t[j + n] != QUOTE)
    ensures StringEnd(t, j, escaped) == Some(j + n)
    decreases n
  {
    SameAt(s, i, t, j, n, 0);
    if n > 1 { SameAt(s, i, t, j, n, 1); }
    if (escaped && s[i] == BACKSLASH && i + 1 < |s|) || At(s, i, QUOTE, QUOTE) {
      SameFrom(s, i, t, j, n, 2);
      StringSame(s, i + 2, t, j + 2, n - 2, escaped);
    } else if s[i] != QUOTE {
      SameFrom(s, i, t, j, n, 1);
      StringSame(s, i + 1, t, j + 1, n - 1, escaped);
    }
  }

  lemma {:induction false} IdentStops(u: Unicode, s: Text, i: nat)
    requires i <= |s|
    ensures var end := IdentEnd(u, s, i); end == |s| || !IdentPart(u, Decode(s, end).value)
    decreases |s| - i
  {
    if i < |s| && IdentPart(u, Decode(s, i).value) { IdentStops(u, s, i + Decode(s, i).size); }
  }

  lemma PartSame(u: Unicode, s: Text, i: nat, t: Text, j: nat, n: nat)
    requires i < |s| && IdentPart(u, Decode(s, i).value) && Same(s, i, t, j, n) && Decode(s, i).size <= n
    ensures Decode(t, j) == Decode(s, i)
  {
    SameAt(s, i, t, j, n, 0);
    if s[i] >= 128 {
      SameUpTo(s, i, t, j, n, Need(s[i]));
      DecodeWithin(s, i, t, j);
    }
  }

  lemma {:induction false} IdentSame(u: Unicode, s: Text, i: nat, t: Text, j: nat, n: nat)
    requires Same(s, i, t, j, n) && IdentEnd(u, s, i) == i + n
    requires j + n == |t| || !IdentPart(u, Decode(t, j + n).value)
    ensures IdentEnd(u, t, j) == j + n
    decreases n
  {
    if n > 0 {
      var size := Decode(s, i).size;
      assert IdentEnd(u, s, i + size) == i + n;
      PartSame(u, s, i, t, j, n);
      SameFrom(s, i, t, j, n, size);
      IdentSame(u, s, i + size, t, j + size, n - size);
    }
  }

  // ---- Numbers ----

  // A number does not end in front of this byte.
  predicate Continues(text: Text, b: Byte)
    requires text != []
  {
    if HasRadix(text, 0) then In(Hex, b)
    else if text == [48] && Radix(b) then true
    else
      var n := SpanEnd(text, 1, DecimalOrDot);
      if n == |text| then In(DecimalOrDot, b) || Exponent(b)
      else In(Decimal, b) || (n + 1 == |text| && Sign(b))
  }

  // A number's digits, seen from its text alone.
  lemma DigitsSame(s: Text, i: nat, text: Text)
    requires text != [] && Same(s, i, text, 0, |text|)
    requires SpanEnd(s, i + 1, DecimalOrDot) <= i + |text|
    ensures SpanEnd(text, 1, DecimalOrDot) == SpanEnd(s, i + 1, DecimalOrDot) - i
  {
    var n := SpanEnd(s, i + 1, DecimalOrDot);
    SameFrom(s, i, text, 0, |text|, 1);
    SameUpTo(s, i + 1, text, 1, |text| - 1, n - i - 1);
    if n < i + |text| { SameAt(s, i, text, 0, |text|, n - i); }
    SpanSame(s, i + 1, text, 1, n - i - 1, DecimalOrDot);
  }

  lemma NumberStops(s: Text, i: nat, text: Text)
    requires text != [] && Same(s, i, text, 0, |text|) && NumberEnd(s, i) == i + |text| < |s|
    ensures !Continues(text, s[i + |text|])
  {
    SameAt(s, i, text, 0, |text|, 0);
    if |text| > 1 { SameAt(s, i, text, 0, |text|, 1); }
    if !HasRadix(s, i) { DigitsSame(s, i, text); }
  }

  lemma NumberSame(s: Text, i: nat, t: Text, j: nat, text: Text)
    requires text != [] && Same(s, i, text, 0, |text|) && Same(s, i, t, j, |text|) && NumberEnd(s, i) == i + |text|
    requires j + |text| == |t| || !Continues(text, t[j + |text|])
    ensures NumberEnd(t, j) == j + |text|
  {
    var n := |text|;
    SameAt(s, i, text, 0, n, 0);
    SameAt(s, i, t, j, n, 0);
    if n > 1 {
      SameAt(s, i, text, 0, n, 1);
      SameAt(s, i, t, j, n, 1);
    }
    if HasRadix(s, i) {
      SameFrom(s, i, t, j, n, 2);
      SpanSame(s, i + 2, t, j + 2, n - 2, Hex);
    } else {
      DigitsSame(s, i, text);
      var m := SpanEnd(text, 1, DecimalOrDot);
      if m == n { PlainSame(s, i, t, j, n); } else { DecimalSame(s, i, t, j, n, m); }
    }
  }

  lemma PlainSame(s: Text, i: nat, t: Text, j: nat, n: nat)
    requires n > 0 && Same(s, i, t, j, n) && SpanEnd(s, i + 1, DecimalOrDot) == i + n
    requires j + n == |t| || (!In(DecimalOrDot, t[j + n]) && !Exponent(t[j + n]))
    ensures DecimalEnd(t, j) == j + n
  {
    SameFrom(s, i, t, j, n, 1);
    SpanSame(s, i + 1, t, j + 1, n - 1, DecimalOrDot);
  }

  lemma DecimalSame(s: Text, i: nat, t: Text, j: nat, n: nat, m: nat)
    requires 0 < m < n && Same(s, i, t, j, n) && SpanEnd(s, i + 1, DecimalOrDot) == i + m && DecimalEnd(s, i) == i + n
    requires j + n == |t| || (!In(Decimal, t[j + n]) && (n == m + 1 ==> !Sign(t[j + n])))
    ensures DecimalEnd(t, j) == j + n
  {
    SameAt(s, i, t, j, n, m);
    SameUpTo(s, i, t, j, n, m);
    SameFrom(s, i, t, j, m, 1);
    SpanSame(s, i + 1, t, j + 1, m - 1, DecimalOrDot);
    SameFrom(s, i, t, j, n, m);
    ExponentSame(s, i + m, t, j + m, n - m);
  }

  lemma ExponentSame(s: Text, i: nat, t: Text, j: nat, n: nat)
    requires n > 0 && Same(s, i, t, j, n) && ExponentEnd(s, i) == i + n
    requires j + n == |t| || (!In(Decimal, t[j + n]) && (n == 1 ==> !Sign(t[j + n])))
    ensures ExponentEnd(t, j) == j + n
  {
    if n > 1 { SameAt(s, i, t, j, n, 1); }
    var k := if i + 1 < |s| && Sign(s[i + 1]) then 2 else 1;
    SameFrom(s, i, t, j, n, k);
    SpanSame(s, i + k, t, j + k, n - k, Decimal);
  }

  // ---- One token ----

  // The token does not end in front of position i of s, although its text does.
  predicate Fuses(u: Unicode, t: Token, s: Text, i: nat)
    requires t.text != [] && i < |s|
  {
    match t.kind
    case Trivia => At(t.text, 0, DASH, DASH) && s[i] != LF
    case StringLiteral => s[i] == QUOTE && !QPrefix(t.text[0]) && t.text[0] != DOLLAR
    case QuotedName => s[i] == Closing(t.text[0])
    case Identifier =>
      || IdentPart(u, Decode(s, i).value)
      || (|t.text| == 1 && s[i] == QUOTE && (StringPrefix(t.text[0]) || (QPrefix(t.text[0]) && i + 1 < |s|)))
    case Punctuation =>
      if AsciiDigit(t.text[0]) then Continues(t.text, s[i]) else |t.text| == 1 && Pairs(t.text[0], s[i])
  }

  // Two symbols that mean something else together: --, /* and ::
  predicate Pairs(a: Byte, b: Byte) {
    (a == DASH && b == DASH) || (a == SLASH && b == STAR) || (a == COLON && b == COLON)
  }

  // The lexer reads this token at position i.
  ghost predicate Reads(u: Unicode, s: Text, i: nat, arrayBracket: bool, t: Token) {
    && t.text != [] && Same(s, i, t.text, 0, |t.text|)
    && Scan(u, s, i, arrayBracket) == Success(Lexeme(t.kind, i + |t.text|, t.name))
  }

  // Its first two bytes.
  lemma Begins(u: Unicode, s: Text, i: nat, b: bool, t: Token)
    requires Reads(u, s, i, b, t)
    ensures s[i] == t.text[0] && (|t.text| > 1 ==> s[i + 1] == t.text[1])
  {
    SameAt(s, i, t.text, 0, |t.text|, 0);
    if |t.text| > 1 { SameAt(s, i, t.text, 0, |t.text|, 1); }
  }

  lemma ReadsStops(u: Unicode, s: Text, i: nat, b: bool, t: Token)
    requires Reads(u, s, i, b, t) && i + |t.text| < |s|
    ensures !Fuses(u, t, s, i + |t.text|)
  {
    Begins(u, s, i, b, t);
    match t.kind
    case StringLiteral => LiteralStops(u, s, i, b, t);
    case QuotedName => DelimitedStops(s, i, Closing(s[i]));
    case Identifier => IdentifierStops(u, s, i, b, t);
    case Punctuation => PunctuationStops(u, s, i, b, t);
    case Trivia => TriviaStops(u, s, i, b, t);
  }

  lemma TriviaStops(u: Unicode, s: Text, i: nat, b: bool, t: Token)
    requires Reads(u, s, i, b, t) && i + |t.text| < |s| && t.kind == Trivia
    requires s[i] == t.text[0] && (|t.text| > 1 ==> s[i + 1] == t.text[1])
    ensures At(t.text, 0, DASH, DASH) ==> s[i + |t.text|] == LF
  {}

  lemma LiteralStops(u: Unicode, s: Text, i: nat, b: bool, t: Token)
    requires Reads(u, s, i, b, t) && i + |t.text| < |s| && t.kind == StringLiteral && s[i] == t.text[0]
    ensures s[i + |t.text|] != QUOTE || QPrefix(t.text[0]) || t.text[0] == DOLLAR
  {
    if ShapeOf(u, s, i, b) == PlainString {
      StringStops(s, if s[i] == QUOTE then i + 1 else i + 2, s[i] == 101 || s[i] == 69);
    }
  }

  lemma IdentifierStops(u: Unicode, s: Text, i: nat, b: bool, t: Token)
    requires Reads(u, s, i, b, t) && i + |t.text| < |s| && t.kind == Identifier && s[i] == t.text[0]
    ensures !Fuses(u, t, s, i + |t.text|)
  {
    IdentStops(u, s, i + Decode(s, i).size);
  }

  lemma PunctuationStops(u: Unicode, s: Text, i: nat, b: bool, t: Token)
    requires Reads(u, s, i, b, t) && i + |t.text| < |s| && t.kind == Punctuation && s[i] == t.text[0]
    ensures !Fuses(u, t, s, i + |t.text|)
  {
    if ShapeOf(u, s, i, b) == Number { NumberStops(s, i, t.text); }
  }

  lemma DelimitedStops(s: Text, i: nat, close: Byte)
    requires i < |s| && Body(s[i + 1..], close, false).Success?
    ensures var end := |s| - |Body(s[i + 1..], close, false).value.rest|; end == |s| || s[end] != close
  {
    var b := Body(s[i + 1..], close, false).value;
    BodyWithoutEscapes(s[i + 1..], close);
    if b.rest != [] {
      assert s[i + 1..][|s| - i - 1 - |b.rest|] == b.rest[0];
    }
  }

  // A bracket opens a name, or it is a symbol of its own.
  lemma BracketReads(u: Unicode, s: Text, i: nat, b: bool, t: Token)
    requires Reads(u, s, i, b, t) && t.text[0] == LBRACKET
    ensures if b then t.kind == Punctuation && |t.text| == 1 else t.kind == QuotedName
  {
    Begins(u, s, i, b, t);
  }

  lemma LiteralLong(u: Unicode, s: Text, i: nat, b: bool, t: Token)
    requires Reads(u, s, i, b, t)
    ensures t.text[0] == QUOTE ==> |t.text| > 1
  {
    Begins(u, s, i, b, t);
  }

  lemma DoubleIsName(u: Unicode, s: Text, i: nat, b: bool, t: Token)
    requires Reads(u, s, i, b, t)
    ensures t.text[0] == DOUBLE ==> t.kind == QuotedName
    ensures t.kind == QuotedName ==> t.text[0] == DOUBLE || t.text[0] == BACKTICK || t.text[0] == LBRACKET
  {
    Begins(u, s, i, b, t);
  }

  lemma LineFeedIsTrivia(u: Unicode, s: Text, i: nat, b: bool, t: Token)
    requires Reads(u, s, i, b, t)
    ensures t.text[0] == LF ==> t.kind == Trivia
  {
    Begins(u, s, i, b, t);
  }

  lemma TriviaIsNoDot(u: Unicode, s: Text, i: nat, b: bool, t: Token)
    requires Reads(u, s, i, b, t) && t.kind == Trivia
    ensures t.text[0] != DOT
  {
    Begins(u, s, i, b, t);
  }

  lemma QuotedReads(u: Unicode, s: Text, i: nat, b: bool, name: Text, before: Text, after: Text)
    requires s == before + Quote(name) + after && i == |before| && (after == [] || after[0] != DOUBLE)
    ensures Reads(u, s, i, b, Token(Quote(name), name, QuotedName))
  {
    QuotedNameDecodes(u, before, name, after, b);
    assert s[i..i + |Quote(name)|] == Quote(name)[0..|Quote(name)|];
    SameSlices(s, i, Quote(name), 0, |Quote(name)|);
  }

  // ---- One token in two texts ----

  // What follows in the text does not fuse with the token.
  ghost predicate Stops(u: Unicode, s: Text, p: nat, t: Token) {
    t.text != [] && (p + |t.text| < |s| ==> !Fuses(u, t, s, p + |t.text|))
  }

  // Position j of r begins like position i of s, with the token t there, and what follows does not fuse with it.
  ghost predicate Alike(u: Unicode, s: Text, i: nat, r: Text, j: nat, t: Token) {
    t.text != [] && Same(s, i, r, j, |t.text|) && Decode(r, j) == Decode(s, i) && Stops(u, r, j, t)
  }

  lemma {:induction false} SameBack(s: Text, i: nat, t: Text, j: nat, r: Text, k: nat, n: nat)
    requires Same(s, i, t, j, n) && Same(s, i, r, k, n)
    ensures Same(r, k, t, j, n)
    decreases n
  {
    if n > 0 { SameBack(s, i + 1, t, j + 1, r, k + 1, n - 1); }
  }

  // A single letter in front of a quote is not a name of its own.
  lemma NameBeforeQuote(u: Unicode, s: Text, i: nat, r: Text, j: nat, t: Token, b: bool)
    requires Reads(u, s, i, b, t) && Alike(u, s, i, r, j, t) && t.kind == Identifier
    ensures j + 1 < |r| && r[j + 1] == QUOTE ==> !StringPrefix(r[j]) && !(QPrefix(r[j]) && j + 2 < |r|)
  {
    SameAt(s, i, r, j, |t.text|, 0);
    SameAt(s, i, t.text, 0, |t.text|, 0);
    if |t.text| > 1 {
      SameAt(s, i, r, j, |t.text|, 1);
      if s[i] < 128 { assert IdentPart(u, Decode(s, i + 1).value); }
    }
  }

  lemma ShapeAgain(u: Unicode, s: Text, i: nat, r: Text, j: nat, t: Token, b: bool, c: bool)
    requires Reads(u, s, i, b, t) && Alike(u, s, i, r, j, t) && (t.text[0] == LBRACKET ==> b == c)
    ensures ShapeOf(u, r, j, c) == ShapeOf(u, s, i, b)
  {
    SameAt(s, i, r, j, |t.text|, 0);
    SameAt(s, i, t.text, 0, |t.text|, 0);
    if |t.text| > 1 {
      SameAt(s, i, r, j, |t.text|, 1);
      SameAt(s, i, t.text, 0, |t.text|, 1);
    }
    if t.kind == Identifier { NameBeforeQuote(u, s, i, r, j, t, b); }
  }

  lemma CommentAgain(u: Unicode, s: Text, i: nat, r: Text, j: nat, t: Token, b: bool)
    requires Reads(u, s, i, b, t) && Alike(u, s, i, r, j, t) && ShapeOf(u, s, i, b) in {LineComment, BlockComment}
    requires ShapeOf(u, r, j, b) == ShapeOf(u, s, i, b)
    ensures ScanAs(u, r, j, ShapeOf(u, s, i, b)) == Success(Lexeme(t.kind, j + |t.text|, t.name))
  {
    Begins(u, s, i, b, t);
    SameFrom(s, i, r, j, |t.text|, 2);
    if ShapeOf(u, s, i, b) == LineComment {
      SpanSame(s, i + 2, r, j + 2, |t.text| - 2, NotNewline);
    } else {
      CommentSame(s, i + 2, r, j + 2, |t.text| - 2, 1);
    }
  }

  lemma QStringAgain(u: Unicode, s: Text, i: nat, r: Text, j: nat, t: Token, b: bool)
    requires Reads(u, s, i, b, t) && Alike(u, s, i, r, j, t) && ShapeOf(u, s, i, b) == QString
    requires ShapeOf(u, r, j, b) == QString
    ensures ScanAs(u, r, j, QString) == Success(Lexeme(t.kind, j + |t.text|, t.name))
  {
    SameAt(s, i, r, j, |t.text|, 2);
    SameFrom(s, i, r, j, |t.text|, 3);
    IndexSame(s, i + 3, r, j + 3, |t.text| - 5, [QEnd(s[i + 2]), QUOTE]);
  }

  lemma StringAgain(u: Unicode, s: Text, i: nat, r: Text, j: nat, t: Token, b: bool)
    requires Reads(u, s, i, b, t) && Alike(u, s, i, r, j, t) && ShapeOf(u, s, i, b) == PlainString
    requires ShapeOf(u, r, j, b) == PlainString
    ensures ScanAs(u, r, j, PlainString) == Success(Lexeme(t.kind, j + |t.text|, t.name))
  {
    Begins(u, s, i, b, t);
    SameAt(s, i, r, j, |t.text|, 0);
    var open := if s[i] == QUOTE then 1 else 2;
    SameFrom(s, i, r, j, |t.text|, open);
    StringSame(s, i + open, r, j + open, |t.text| - open, s[i] == 101 || s[i] == 69);
  }

  lemma DollarAgain(u: Unicode, s: Text, i: nat, r: Text, j: nat, t: Token, b: bool)
    requires Reads(u, s, i, b, t) && Alike(u, s, i, r, j, t) && ShapeOf(u, s, i, b) == Dollar
    requires ShapeOf(u, r, j, b) == Dollar
    ensures ScanAs(u, r, j, Dollar) == Success(Lexeme(t.kind, j + |t.text|, t.name))
  {
    DollarSame(s, i, r, j, |t.text|);
  }

  // A dollar string: a delimiter of k bytes, m bytes more, and the delimiter again.
  ghost predicate DollarParts(s: Text, i: nat, k: nat, m: nat, delimiter: Text) {
    && 2 <= k && i + k <= |s| && SpanEnd(s, i + 1, Tag) == i + k - 1 && s[i + k - 1] == DOLLAR
    && delimiter == s[i..i + k] && Index(s, i + k, delimiter) == Some(i + k + m)
  }

  lemma DollarOf(s: Text, i: nat, n: nat) returns (k: nat, m: nat, delimiter: Text)
    requires i < |s| && ScanDollar(s, i) == Success(Lexeme(StringLiteral, i + n, []))
    ensures DollarParts(s, i, k, m, delimiter) && n == k + m + |delimiter|
  {
    var j := SpanEnd(s, i + 1, Tag);
    k, delimiter := j + 1 - i, s[i..j + 1];
    m := Index(s, j + 1, delimiter).value - (j + 1);
  }

  lemma DollarIs(s: Text, i: nat, k: nat, m: nat, delimiter: Text)
    requires DollarParts(s, i, k, m, delimiter)
    ensures ScanDollar(s, i) == Success(Lexeme(StringLiteral, i + k + m + |delimiter|, []))
  {
    assert s[i..SpanEnd(s, i + 1, Tag) + 1] == delimiter;
  }

  lemma DollarSame(s: Text, i: nat, r: Text, j: nat, n: nat)
    requires n > 0 && Same(s, i, r, j, n) && ScanDollar(s, i) == Success(Lexeme(StringLiteral, i + n, []))
    ensures ScanDollar(r, j) == Success(Lexeme(StringLiteral, j + n, []))
  {
    var k, m, delimiter := DollarOf(s, i, n);
    DollarMoves(s, i, r, j, n, k, m, delimiter);
    DollarIs(r, j, k, m, delimiter);
  }

  lemma DollarMoves(s: Text, i: nat, r: Text, j: nat, n: nat, k: nat, m: nat, delimiter: Text)
    requires DollarParts(s, i, k, m, delimiter) && n == k + m + |delimiter| && Same(s, i, r, j, n)
    ensures DollarParts(r, j, k, m, delimiter)
  {
    TagSame(s, i, r, j, n, k);
    DelimiterSame(s, i, r, j, k, m, delimiter);
  }

  lemma DelimiterSame(s: Text, i: nat, r: Text, j: nat, k: nat, m: nat, delimiter: Text)
    requires i + k <= |s| && Index(s, i + k, delimiter) == Some(i + k + m) && Same(s, i, r, j, k + m + |delimiter|)
    ensures Index(r, j + k, delimiter) == Some(j + k + m)
  {
    SameFrom(s, i, r, j, k + m + |delimiter|, k);
    IndexSame(s, i + k, r, j + k, m, delimiter);
  }

  lemma TagSame(s: Text, i: nat, r: Text, j: nat, n: nat, k: nat)
    requires Same(s, i, r, j, n) && 2 <= k <= n && SpanEnd(s, i + 1, Tag) == i + k - 1 && s[i + k - 1] == DOLLAR
    ensures SpanEnd(r, j + 1, Tag) == j + k - 1 && r[j + k - 1] == DOLLAR && s[i..i + k] == r[j..j + k]
  {
    SameUpTo(s, i, r, j, n, k);
    SameToSlices(s, i, r, j, k);
    SameAt(s, i, r, j, n, k - 1);
    SameUpTo(s, i, r, j, n, k - 1);
    SameFrom(s, i, r, j, k - 1, 1);
    SpanSame(s, i + 1, r, j + 1, k - 2, Tag);
  }

  lemma BareAgain(u: Unicode, s: Text, i: nat, r: Text, j: nat, t: Token, b: bool)
    requires Reads(u, s, i, b, t) && Alike(u, s, i, r, j, t) && ShapeOf(u, s, i, b) == Bare
    requires ShapeOf(u, r, j, b) == Bare
    ensures ScanAs(u, r, j, Bare) == Success(Lexeme(t.kind, j + |t.text|, t.name))
  {
    BareMoves(u, s, i, r, j, |t.text|, Decode(s, i).size);
  }

  lemma BareMoves(u: Unicode, s: Text, i: nat, r: Text, j: nat, n: nat, size: nat)
    requires size <= n && Same(s, i, r, j, n) && IdentEnd(u, s, i + size) == i + n
    requires j + n < |r| ==> !IdentPart(u, Decode(r, j + n).value)
    ensures IdentEnd(u, r, j + size) == j + n && r[j..j + n] == s[i..i + n]
  {
    SameFrom(s, i, r, j, n, size);
    IdentSame(u, s, i + size, r, j + size, n - size);
    SameToSlices(s, i, r, j, n);
  }

  lemma DelimitedAgain(u: Unicode, s: Text, i: nat, r: Text, j: nat, t: Token, b: bool)
    requires Reads(u, s, i, b, t) && Alike(u, s, i, r, j, t) && ShapeOf(u, s, i, b) == Delimited
    requires ShapeOf(u, r, j, b) == Delimited
    ensures ScanAs(u, r, j, Delimited) == Success(Lexeme(t.kind, j + |t.text|, t.name))
  {
    Begins(u, s, i, b, t);
    DelimitedMoves(s, i, r, j, |t.text|, Closing(s[i]));
  }

  lemma DelimitedMoves(s: Text, i: nat, r: Text, j: nat, n: nat, close: Byte)
    requires 0 < n && Same(s, i, r, j, n) && Body(s[i + 1..], close, false).Success?
    requires |s| - |Body(s[i + 1..], close, false).value.rest| == i + n
    requires j + n < |r| ==> r[j + n] != close
    ensures r[j] == s[i]
    ensures Body(r[j + 1..], close, false)
            == Success(Quoted(Body(s[i + 1..], close, false).value.value, r[j + n..]))
  {
    SameAt(s, i, r, j, n, 0);
    DelimitedText(s, i, close);
    SameToSlices(s, i, r, j, n);
    DelimitedBody(r, j, n, Body(s[i + 1..], close, false).value.value, close);
  }

  lemma DelimitedBody(r: Text, j: nat, n: nat, name: Text, close: Byte)
    requires 0 < n && j + n <= |r| && r[j..j + n] == [r[j]] + Doubled(name, close) + [close]
    requires j + n == |r| || r[j + n] != close
    ensures Body(r[j + 1..], close, false) == Success(Quoted(name, r[j + n..]))
  {
    assert r[j + 1..] == Doubled(name, close) + [close] + r[j + n..] by {
      assert r[j..j + n][1..] == r[j + 1..j + n];
      assert r[j + 1..] == r[j + 1..j + n] + r[j + n..];
    }
    BodyOfDoubled(name, close, r[j + n..]);
  }

  // Where the text and the first rune are the same, and what follows does not fuse, the token is read again.
  lemma ReadsAgain(u: Unicode, s: Text, i: nat, r: Text, j: nat, t: Token, b: bool, c: bool)
    requires Reads(u, s, i, b, t) && Alike(u, s, i, r, j, t) && (t.text[0] == LBRACKET ==> b == c)
    ensures Reads(u, r, j, c, t)
  {
    ShapeAgain(u, s, i, r, j, t, b, c);
    ShapeAgain(u, s, i, r, j, t, b, b);
    SameBack(s, i, t.text, 0, r, j, |t.text|);
    match ShapeOf(u, s, i, b)
    case LineComment => CommentAgain(u, s, i, r, j, t, b);
    case BlockComment => CommentAgain(u, s, i, r, j, t, b);
    case QString => QStringAgain(u, s, i, r, j, t, b);
    case PlainString => StringAgain(u, s, i, r, j, t, b);
    case Dollar => DollarAgain(u, s, i, r, j, t, b);
    case Delimited => DelimitedAgain(u, s, i, r, j, t, b);
    case Number => NumberSame(s, i, r, j, t.text);
    case Bare => BareAgain(u, s, i, r, j, t, b);
    case Space =>
    case Symbol => SymbolAgain(u, s, i, r, j, t, b);
  }

  lemma SymbolAgain(u: Unicode, s: Text, i: nat, r: Text, j: nat, t: Token, b: bool)
    requires Reads(u, s, i, b, t) && Alike(u, s, i, r, j, t)
    requires ShapeOf(u, s, i, b) == ShapeOf(u, r, j, b) == Shape.Symbol
    ensures ScanAs(u, r, j, Shape.Symbol) == Success(Lexeme(t.kind, j + |t.text|, t.name))
  {
    Begins(u, s, i, b, t);
    SameAt(s, i, r, j, |t.text|, 0);
    if |t.text| > 1 { SameAt(s, i, r, j, |t.text|, 1); }
  }
}
