// The view lexer of datamigrate/oscar_view.go: a lossless division of SQL text into tokens.
module ViewLexer {
  import opened Wrappers
  import opened Encoding
  import opened StringLiterals

  const LF: Byte := 10
  const DOLLAR: Byte := 36
  const OPEN: Byte := 40
  const CLOSE: Byte := 41
  const STAR: Byte := 42
  const DASH: Byte := 45
  const DOT: Byte := 46
  const SLASH: Byte := 47
  const COLON: Byte := 58
  const LBRACKET: Byte := 91
  const RBRACKET: Byte := 93

  datatype Kind = Identifier | QuotedName | StringLiteral | Trivia | Punctuation

  // name: the decoded identifier, empty for every other kind.
  datatype Token = Token(text: Text, name: Text, kind: Kind)

  datatype LexError = OpenComment | OpenQString | OpenString | BadDollar | OpenDollar | OpenName

  datatype Lexeme = Lexeme(kind: Kind, end: nat, name: Text)

  datatype Rune = Rune(value: nat, size: nat)

  // Words that change how their neighbours are read.
  datatype Word =
    | Other | ARRAY | SELECT | WHERE | GROUP | HAVING | ORDER | UNION | LIMIT | OFFSET
    | FROM | JOIN | ONLY | LATERAL | AS | NOT | MATERIALIZED
    | EXTRACT | SUBSTRING | TRIM | OVERLAY | INTERVAL | COLLATE | CAST
    | YEAR | MONTH | DAY | HOUR | MINUTE | SECOND | TO
    | PRECISION | VARYING | WITH | WITHOUT | TIME | ZONE

  // Library facts beyond ASCII, case mappings, and what an upper-cased name spells: one of the words
  // above, and whether it is in the table of reserved words.
  datatype Unicode = Unicode(
    letter: nat -> bool, digit: nat -> bool, space: nat -> bool,
    upper: Text -> Text, word: Text -> Word, reserved: Text -> bool, foldEqual: (Text, Text) -> bool,
    trim: Text -> Text)

  // ---- UTF-8 ----

  predicate Continuation(b: Byte) { 128 <= b < 192 }

  // How many bytes a sequence with this first byte has; 0 if none has it.
  function Need(b: Byte): nat {
    if 194 <= b < 224 then 2 else if 224 <= b < 240 then 3 else if 240 <= b < 245 then 4 else 0
  }

  // Which second bytes the first one allows: no overlong forms, no surrogates, nothing above U+10FFFF.
  predicate Second(first: Byte, b: Byte) {
    && Continuation(b) && (first == 224 ==> b >= 160) && (first == 237 ==> b < 160)
    && (first == 240 ==> b >= 144) && (first == 244 ==> b < 144)
  }

  predicate Encoded(s: Text, i: nat)
    requires i < |s|
  {
    var n := Need(s[i]);
    && n > 0 && i + n <= |s| && Second(s[i], s[i + 1])
    && (n > 2 ==> Continuation(s[i + 2])) && (n > 3 ==> Continuation(s[i + 3]))
  }

  function Bits(b: Byte, mark: int): (n: nat)
    requires mark <= b
    ensures n == b as int - mark
  {
    b as int - mark
  }

  // What stands for a byte that begins no encoded character.
  const REPLACEMENT := 65533

  function Decode(s: Text, i: nat): (r: Rune)
    requires i < |s|
    ensures 1 <= r.size <= |s| - i && (s[i] < 128 ==> r == Rune(s[i], 1)) && (s[i] >= 128 ==> r.value >= 128)
  {
    if s[i] < 128 then Rune(s[i], 1)
    else if !Encoded(s, i) then Rune(REPLACEMENT, 1)
    else if Need(s[i]) == 2 then Rune(Bits(s[i], 192) * 64 + Bits(s[i + 1], 128), 2)
    else if Need(s[i]) == 3 then
      Rune(Bits(s[i], 224) * 4096 + Bits(s[i + 1], 128) * 64 + Bits(s[i + 2], 128), 3)
    else
      Rune(Bits(s[i], 240) * 262144 + Bits(s[i + 1], 128) * 4096 + Bits(s[i + 2], 128) * 64 + Bits(s[i + 3], 128), 4)
  }

  predicate AsciiLetter(r: nat) { 65 <= r <= 90 || 97 <= r <= 122 }
  predicate AsciiDigit(r: nat) { 48 <= r <= 57 }

  // The replacement character is a symbol.
  predicate IsSpace(u: Unicode, r: nat) {
    if r < 128 then 9 <= r <= 13 || r == 32 else r != REPLACEMENT && u.space(r)
  }
  predicate IsLetter(u: Unicode, r: nat) { if r < 128 then AsciiLetter(r) else r != REPLACEMENT && u.letter(r) }
  predicate IsDigit(u: Unicode, r: nat) { if r < 128 then AsciiDigit(r) else r != REPLACEMENT && u.digit(r) }

  predicate IdentStart(u: Unicode, r: nat) { r == 95 || IsLetter(u, r) }
  predicate IdentPart(u: Unicode, r: nat) { IdentStart(u, r) || IsDigit(u, r) || r == DOLLAR || r == 35 }

  // ---- Where a piece that begins at i ends ----

  datatype Class = NotNewline | Hex | Decimal | DecimalOrDot | Tag

  predicate In(c: Class, b: Byte) {
    match c
    case NotNewline => b != LF
    case Hex => AsciiDigit(b) || 97 <= b <= 102 || 65 <= b <= 70
    case Decimal => AsciiDigit(b)
    case DecimalOrDot => AsciiDigit(b) || b == DOT
    case Tag => b == 95 || AsciiLetter(b) || AsciiDigit(b)
  }

  function SpanEnd(s: Text, i: nat, c: Class): (j: nat)
    requires i <= |s|
    ensures i <= j <= |s| && (j < |s| ==> !In(c, s[j]))
    ensures forall k :: i <= k < j ==> In(c, s[k])
    decreases |s| - i
  {
    if i == |s| || !In(c, s[i]) then i else SpanEnd(s, i + 1, c)
  }

  predicate At(s: Text, i: nat, a: Byte, b: Byte) { i + 1 < |s| && s[i] == a && s[i + 1] == b }

  // Comments nest.
  function CommentEnd(s: Text, i: nat, depth: nat): (r: Option<nat>)
    requires i <= |s|
    ensures r.Some? ==> i <= r.value <= |s|
    decreases |s| - i
  {
    if depth == 0 then Some(i)
    else if i == |s| then None
    else if At(s, i, SLASH, STAR) then CommentEnd(s, i + 2, depth + 1)
    else if At(s, i, STAR, SLASH) then CommentEnd(s, i + 2, depth - 1)
    else CommentEnd(s, i + 1, depth)
  }

  predicate Occurs(s: Text, i: nat, pattern: Text) {
    i + |pattern| <= |s| && s[i..i + |pattern|] == pattern
  }

  // The first place from i on where a pattern occurs.
  function Index(s: Text, i: nat, pattern: Text): (r: Option<nat>)
    requires i <= |s|
    ensures r.Some? ==> i <= r.value && Occurs(s, r.value, pattern)
    ensures forall k: nat :: i <= k && Occurs(s, k, pattern) ==> r.Some? && r.value <= k
    decreases |s| - i
  {
    if Occurs(s, i, pattern) then Some(i)
    else if i == |s| then None
    else Index(s, i + 1, pattern)
  }

  // The end of a string literal whose opening quote is just before i.
  function StringEnd(s: Text, i: nat, escaped: bool): (r: Option<nat>)
    requires i <= |s|
    ensures r.Some? ==> i < r.value <= |s|
    decreases |s| - i
  {
    if i == |s| then None
    else if escaped && s[i] == BACKSLASH && i + 1 < |s| then StringEnd(s, i + 2, escaped)
    else if s[i] != QUOTE then StringEnd(s, i + 1, escaped)
    else if At(s, i, QUOTE, QUOTE) then StringEnd(s, i + 2, escaped)
    else Some(i + 1)
  }

  function IdentEnd(u: Unicode, s: Text, i: nat): (j: nat)
    requires i <= |s|
    ensures i <= j <= |s|
    decreases |s| - i
  {
    if i == |s| || !IdentPart(u, Decode(s, i).value) then i
    else IdentEnd(u, s, i + Decode(s, i).size)
  }

  predicate Radix(b: Byte) { b == 120 || b == 88 || b == 98 || b == 66 }
  predicate Exponent(b: Byte) { b == 101 || b == 69 }
  predicate Sign(b: Byte) { b == 43 || b == DASH }

  predicate HasRadix(s: Text, i: nat)
    requires i < |s|
  {
    s[i] == 48 && i + 1 < |s| && Radix(s[i + 1])
  }

  // The end of the exponent that begins at n.
  function ExponentEnd(s: Text, n: nat): (j: nat)
    requires n < |s|
    ensures n < j <= |s|
  {
    SpanEnd(s, if n + 1 < |s| && Sign(s[n + 1]) then n + 2 else n + 1, Decimal)
  }

  function DecimalEnd(s: Text, i: nat): (j: nat)
    requires i < |s|
    ensures i < j <= |s|
  {
    var n := SpanEnd(s, i + 1, DecimalOrDot);
    if n < |s| && Exponent(s[n]) then ExponentEnd(s, n) else n
  }

  function NumberEnd(s: Text, i: nat): (j: nat)
    requires i < |s|
    ensures i < j <= |s|
  {
    if HasRadix(s, i) then SpanEnd(s, i + 2, Hex) else DecimalEnd(s, i)
  }

  function QEnd(b: Byte): Byte {
    if b == LBRACKET then RBRACKET
    else if b == OPEN then CLOSE
    else if b == 123 then 125
    else if b == 60 then 62
    else b
  }

  predicate QPrefix(b: Byte) { b == 113 || b == 81 }

  predicate StringPrefix(b: Byte) {
    b == 101 || b == 69 || b == 110 || b == 78 || b == 120 || b == 88 || b == 98 || b == 66
  }

  // ---- One token ----

  // The cases of the lexer's switch, in order.
  datatype Shape = Space | LineComment | BlockComment | QString | PlainString | Dollar | Delimited | Number
                 | Bare | Symbol

  predicate Room(s: Text, i: nat, shape: Shape) {
    match shape
    case LineComment => i + 2 <= |s|
    case BlockComment => i + 2 <= |s|
    case QString => i + 3 <= |s|
    case PlainString => i < |s| && (s[i] != QUOTE ==> i + 2 <= |s|)
    case _ => i < |s|
  }

  function ShapeOf(u: Unicode, s: Text, i: nat, arrayBracket: bool): (shape: Shape)
    requires i < |s|
    ensures Room(s, i, shape)
  {
    var r := Decode(s, i).value;
    if IsSpace(u, r) then Space
    else if At(s, i, DASH, DASH) then LineComment
    else if At(s, i, SLASH, STAR) then BlockComment
    else if QPrefix(s[i]) && i + 2 < |s| && s[i + 1] == QUOTE then QString
    else if s[i] == QUOTE || (StringPrefix(s[i]) && i + 1 < |s| && s[i + 1] == QUOTE) then PlainString
    else if s[i] == DOLLAR then Dollar
    else if s[i] == DOUBLE || s[i] == BACKTICK || (s[i] == LBRACKET && !arrayBracket) then Delimited
    else if AsciiDigit(s[i]) then Number
    else if IdentStart(u, r) then Bare
    else Symbol
  }

  function Scan(u: Unicode, s: Text, i: nat, arrayBracket: bool): (r: Result<Lexeme, LexError>)
    requires i < |s|
    ensures r.Success? ==> i < r.value.end <= |s|
  {
    ScanAs(u, s, i, ShapeOf(u, s, i, arrayBracket))
  }

  function ScanAs(u: Unicode, s: Text, i: nat, shape: Shape): (r: Result<Lexeme, LexError>)
    requires i < |s| && Room(s, i, shape)
    ensures r.Success? ==> i < r.value.end <= |s|
  {
    var next := i + Decode(s, i).size;
    match shape
    case Space => Success(Lexeme(Trivia, next, []))
    case LineComment => Success(Lexeme(Trivia, SpanEnd(s, i + 2, NotNewline), []))
    case BlockComment => Until(Trivia, CommentEnd(s, i + 2, 1), 0, OpenComment)
    case QString => Until(StringLiteral, Index(s, i + 3, [QEnd(s[i + 2]), QUOTE]), 2, OpenQString)
    case PlainString =>
      Until(StringLiteral, StringEnd(s, if s[i] == QUOTE then i + 1 else i + 2, s[i] == 101 || s[i] == 69), 0,
        OpenString)
    case Dollar => ScanDollar(s, i)
    case Delimited =>
      var body := Body(s[i + 1..], if s[i] == LBRACKET then RBRACKET else s[i], false);
      if body.Failure? then Failure(OpenName)
      else Success(Lexeme(QuotedName, |s| - |body.value.rest|, body.value.value))
    case Number => Success(Lexeme(Punctuation, NumberEnd(s, i), []))
    case Bare =>
      var end := IdentEnd(u, s, next);
      Success(Lexeme(Identifier, end, s[i..end]))
    case Symbol => Success(Lexeme(Punctuation, if At(s, i, COLON, COLON) then i + 2 else next, []))
  }

  function ScanDollar(s: Text, i: nat): (r: Result<Lexeme, LexError>)
    requires i < |s|
    ensures r.Success? ==> i + 1 < r.value.end <= |s|
  {
    var j := SpanEnd(s, i + 1, Tag);
    if j == |s| || s[j] != DOLLAR then Failure(BadDollar)
    else Until(StringLiteral, Index(s, j + 1, s[i..j + 1]), j + 1 - i, OpenDollar)
  }

  function Until(kind: Kind, end: Option<nat>, more: nat, error: LexError): Result<Lexeme, LexError> {
    if end.None? then Failure(error) else Success(Lexeme(kind, end.value + more, []))
  }

  // A bracket right after an expression, ARRAY or a type is an index, not a quoted name.
  predicate ArrayBracket(u: Unicode, tokens: seq<Token>) {
    && tokens != []
    && var previous := tokens[|tokens| - 1];
       || previous.kind == QuotedName || previous.text == [CLOSE] || previous.text == [RBRACKET]
       || (previous.kind == Identifier && (!u.reserved(previous.name) || u.word(previous.name) == ARRAY))
  }

  function LexFrom(u: Unicode, s: Text, i: nat, before: seq<Token>): Result<seq<Token>, LexError>
    requires i <= |s|
    decreases |s| - i
  {
    if i == |s| then Success(before)
    else
      var one := Scan(u, s, i, ArrayBracket(u, before));
      if one.Failure? then Failure(one.error)
      else LexFrom(u, s, one.value.end, before + [Token(s[i..one.value.end], one.value.name, one.value.kind)])
  }

  function Lexed(u: Unicode, sql: Text): Result<seq<Token>, LexError> { LexFrom(u, sql, 0, []) }

  function Concat(tokens: seq<Token>): Text {
    if tokens == [] then [] else Concat(tokens[..|tokens| - 1]) + tokens[|tokens| - 1].text
  }

  lemma ConcatSnoc(tokens: seq<Token>, t: Token)
    ensures Concat(tokens + [t]) == Concat(tokens) + t.text
  {
    assert (tokens + [t])[..|tokens|] == tokens;
  }

  // ---- The scanning loops ----

  method Belongs(c: Class, b: Byte) returns (yes: bool)
    ensures yes <==> In(c, b)
  {
    var r := b as char;
    match c
    case NotNewline => yes := r != '\n';
    case Hex => yes := '0' <= r <= '9' || 'a' <= r <= 'f' || 'A' <= r <= 'F';
    case Decimal => yes := '0' <= r <= '9';
    case DecimalOrDot => yes := '0' <= r <= '9' || r == '.';
    case Tag => yes := r == '_' || 'a' <= r <= 'z' || 'A' <= r <= 'Z' || '0' <= r <= '9';
  }

  method FindSpanEnd(s: Text, i: nat, c: Class) returns (j: nat)
    requires i <= |s|
    ensures j == SpanEnd(s, i, c)
  {
    j := i;
    while j < |s|
      invariant i <= j <= |s| && SpanEnd(s, i, c) == SpanEnd(s, j, c)
    {
      var more := Belongs(c, s[j]);
      if !more { return; }
      j := j + 1;
    }
  }

  // Letters, digits and spaces beyond ASCII are the library's.
  method StartsIdent(u: Unicode, r: nat) returns (yes: bool)
    ensures yes <==> IdentStart(u, r)
  {
    yes := if r >= 128 then r != REPLACEMENT && u.letter(r)
           else r == '_' as int || 'a' as int <= r <= 'z' as int || 'A' as int <= r <= 'Z' as int;
  }

  method ContinuesIdent(u: Unicode, r: nat) returns (yes: bool)
    ensures yes <==> IdentPart(u, r)
  {
    yes := StartsIdent(u, r);
    if r >= 128 {
      yes := yes || (r != REPLACEMENT && u.digit(r));
    } else {
      yes := yes || '0' as int <= r <= '9' as int || r == '$' as int || r == '#' as int;
    }
  }

  method IsBlank(u: Unicode, r: nat) returns (yes: bool)
    ensures yes <==> IsSpace(u, r)
  {
    yes := if r >= 128 then r != REPLACEMENT && u.space(r)
           else r == ' ' as int || r == '\t' as int || r == '\n' as int || r == '\r' as int || r == 11 || r == 12;
  }

  // The switch of the lexer.
  method FindShape(u: Unicode, s: Text, i: nat, arrayBracket: bool) returns (shape: Shape)
    requires i < |s|
    ensures shape == ShapeOf(u, s, i, arrayBracket)
  {
    var r, c := Decode(s, i).value, s[i] as char;
    var blank := IsBlank(u, r);
    if blank { return Space; }
    if i + 1 < |s| {
      var next := s[i + 1] as char;
      if c == '-' && next == '-' { return LineComment; }
      if c == '/' && next == '*' { return BlockComment; }
      if (c == 'q' || c == 'Q') && i + 2 < |s| && next == '\'' { return QString; }
      if next == '\'' && c in {'e', 'E', 'n', 'N', 'x', 'X', 'b', 'B'} { return PlainString; }
    }
    if c == '\'' { return PlainString; }
    if c == '$' { return Dollar; }
    if c == '"' || c == '`' || (c == '[' && !arrayBracket) { return Delimited; }
    if '0' <= c <= '9' { return Number; }
    var ident := StartsIdent(u, r);
    shape := if ident then Bare else Symbol;
  }

  // Adjacent expression[index], ARRAY[...] and empty type[] suffixes.
  method IsIndex(u: Unicode, tokens: seq<Token>) returns (yes: bool)
    ensures yes <==> ArrayBracket(u, tokens)
  {
    if |tokens| == 0 { return false; }
    var previous := tokens[|tokens| - 1];
    match previous.kind
    case QuotedName => yes := true;
    case Identifier =>
      var word := u.word(previous.name);
      yes := word == ARRAY || !u.reserved(previous.name)
             || previous.text == [')' as int] || previous.text == [']' as int];
    case _ => yes := previous.text == [')' as int] || previous.text == [']' as int];
  }

  method FindCommentEnd(s: Text, i: nat) returns (r: Option<nat>)
    requires i <= |s|
    ensures r == CommentEnd(s, i, 1)
  {
    var j, depth := i, 1;
    while j < |s| && depth > 0
      invariant i <= j <= |s| && depth >= 0 && CommentEnd(s, i, 1) == CommentEnd(s, j, depth)
    {
      if At(s, j, SLASH, STAR) {
        depth := depth + 1;
        j := j + 2;
      } else if At(s, j, STAR, SLASH) {
        depth := depth - 1;
        j := j + 2;
      } else {
        j := j + 1;
      }
    }
    r := if depth != 0 then None else Some(j);
  }

  method FindStringEnd(s: Text, i: nat, escaped: bool) returns (r: Option<nat>)
    requires i <= |s|
    ensures r == StringEnd(s, i, escaped)
  {
    var j := i;
    while j < |s|
      invariant i <= j <= |s| && StringEnd(s, i, escaped) == StringEnd(s, j, escaped)
    {
      if escaped && s[j] == BACKSLASH && j + 1 < |s| {
        j := j + 2;
        continue;
      }
      if s[j] == QUOTE {
        j := j + 1;
        if j < |s| && s[j] == QUOTE {
          j := j + 1;
          continue;
        }
        return Some(j);
      }
      j := j + 1;
    }
    r := None;
  }

  method FindIdentEnd(u: Unicode, s: Text, i: nat) returns (j: nat)
    requires i <= |s|
    ensures j == IdentEnd(u, s, i)
  {
    j := i;
    while j < |s|
      invariant i <= j <= |s| && IdentEnd(u, s, i) == IdentEnd(u, s, j)
    {
      var r := Decode(s, j);
      var more := ContinuesIdent(u, r.value);
      if !more { break; }
      j := j + r.size;
    }
  }

  method FindNameEnd(s: Text, i: nat, end: Byte) returns (r: Option<Quoted>)
    requires i <= |s|
    ensures r == (var body := Body(s[i..], end, false); if body.Success? then Some(body.value) else None)
  {
    var decoded: Text, j := [], i;
    ghost var body := Body(s[i..], end, false);
    if body.Success? { assert [] + body.value.value == body.value.value; }
    while j < |s|
      invariant i <= j <= |s| && body == Grown(decoded, Body(s[j..], end, false))
    {
      assert s[j..][1..] == s[j + 1..];
      GrownCons(decoded, s[j], Body(s[j + 1..], end, false));
      if s[j] == end {
        j := j + 1;
        if j < |s| && s[j] == end {
          assert s[j - 1..][2..] == s[j + 1..];
          GrownCons(decoded, end, Body(s[j + 1..], end, false));
          decoded := decoded + [end];
          j := j + 1;
          continue;
        }
        assert decoded + [] == decoded;
        return Some(Quoted(decoded, s[j..]));
      }
      decoded := decoded + [s[j]];
      j := j + 1;
    }
    r := None;
  }

  function Grown(v: Text, r: Result<Quoted, Error>): Result<Quoted, Error> {
    if r.Success? then Success(r.value.(value := v + r.value.value)) else r
  }

  lemma GrownCons(v: Text, c: Byte, r: Result<Quoted, Error>)
    ensures Grown(v, Cons(c, r)) == Grown(v + [c], r)
  {
    if r.Success? { assert v + ([c] + r.value.value) == (v + [c]) + r.value.value; }
  }

  method FindNumberEnd(s: Text, start: nat) returns (i: nat)
    requires start < |s|
    ensures i == NumberEnd(s, start)
  {
    i := start + 1;
    if s[start] == 48 && i < |s| && (s[i] == 120 || s[i] == 88 || s[i] == 98 || s[i] == 66) {
      i := FindSpanEnd(s, i + 1, Hex);
      return;
    }
    i := FindSpanEnd(s, i, DecimalOrDot);
    if i < |s| && (s[i] == 101 || s[i] == 69) {
      i := i + 1;
      if i < |s| && (s[i] == 43 || s[i] == DASH) { i := i + 1; }
      i := FindSpanEnd(s, i, Decimal);
    }
  }

  method DollarAt(s: Text, i: nat) returns (r: Result<Lexeme, LexError>)
    requires i < |s|
    ensures r == ScanDollar(s, i)
  {
    var j := FindSpanEnd(s, i + 1, Tag);
    if j >= |s| || s[j] != DOLLAR { return Failure(BadDollar); }
    var delimiter := s[i..j + 1];
    var end := Index(s, j + 1, delimiter);
    r := if end.None? then Failure(OpenDollar) else Success(Lexeme(StringLiteral, end.value + |delimiter|, []));
  }

  // One case of the switch: the kind, end and decoded name of the token that begins at i.
  method ScanAt(u: Unicode, s: Text, i: nat, shape: Shape) returns (r: Result<Lexeme, LexError>)
    requires i < |s| && Room(s, i, shape)
    ensures r == ScanAs(u, s, i, shape)
  {
    var next := i + Decode(s, i).size;
    match shape
    case Space => r := Success(Lexeme(Trivia, next, []));
    case LineComment =>
      var end := FindSpanEnd(s, i + 2, NotNewline);
      r := Success(Lexeme(Trivia, end, []));
    case BlockComment =>
      var end := FindCommentEnd(s, i + 2);
      r := if end.None? then Failure(OpenComment) else Success(Lexeme(Trivia, end.value, []));
    case QString =>
      var end := s[i + 2];
      match end as char {
        case '[' => end := ']' as int;
        case '(' => end := ')' as int;
        case '{' => end := '}' as int;
        case '<' => end := '>' as int;
        case _ =>
      }
      var j := Index(s, i + 3, [end, QUOTE]);
      r := if j.None? then Failure(OpenQString) else Success(Lexeme(StringLiteral, j.value + 2, []));
    case PlainString =>
      var end := FindStringEnd(s, if s[i] == QUOTE then i + 1 else i + 2, s[i] == 101 || s[i] == 69);
      r := if end.None? then Failure(OpenString) else Success(Lexeme(StringLiteral, end.value, []));
    case Dollar => r := DollarAt(s, i);
    case Delimited =>
      var body := FindNameEnd(s, i + 1, if s[i] == LBRACKET then RBRACKET else s[i]);
      r := if body.None? then Failure(OpenName)
           else Success(Lexeme(QuotedName, |s| - |body.value.rest|, body.value.value));
    case Number =>
      var end := FindNumberEnd(s, i);
      r := Success(Lexeme(Punctuation, end, []));
    case Bare =>
      var end := FindIdentEnd(u, s, next);
      r := Success(Lexeme(Identifier, end, s[i..end]));
    case Symbol => r := Success(Lexeme(Punctuation, if At(s, i, COLON, COLON) then i + 2 else next, []));
  }

  method LexOscarView(u: Unicode, sql: Text) returns (r: Result<seq<Token>, LexError>)
    ensures r == Lexed(u, sql)
    ensures r.Success? ==> Concat(r.value) == sql
  {
    var tokens, i := [], 0;
    while i < |sql|
      invariant i <= |sql| && Concat(tokens) == sql[..i]
      invariant LexFrom(u, sql, i, tokens) == Lexed(u, sql)
    {
      var index := IsIndex(u, tokens);
      var shape := FindShape(u, sql, i, index);
      var one := ScanAt(u, sql, i, shape);
      if one.Failure? { return Failure(one.error); }
      var t := Token(sql[i..one.value.end], one.value.name, one.value.kind);
      ConcatSnoc(tokens, t);
      assert sql[..one.value.end] == sql[..i] + t.text;
      tokens := tokens + [t];
      i := one.value.end;
    }
    assert sql[..i] == sql;
    r := Success(tokens);
  }

  // ---- What a token's text says ----

  function Closing(open: Byte): Byte { if open == LBRACKET then RBRACKET else open }

  predicate WellFormed(t: Token) {
    match t.kind
    case QuotedName =>
      && t.text != [] && (t.text[0] == DOUBLE || t.text[0] == BACKTICK || t.text[0] == LBRACKET)
      && t.text == [t.text[0]] + Doubled(t.name, Closing(t.text[0])) + [Closing(t.text[0])]
    case Identifier => t.name == t.text != [] && (t.text[0] == 95 || t.text[0] >= 128 || AsciiLetter(t.text[0]))
    case StringLiteral => |t.text| >= 2 && t.name == []
    case _ => t.text != [] && t.name == []
  }

  lemma ScanWellFormed(u: Unicode, s: Text, i: nat, arrayBracket: bool)
    requires i < |s| && Scan(u, s, i, arrayBracket).Success?
    ensures var one := Scan(u, s, i, arrayBracket).value; WellFormed(Token(s[i..one.end], one.name, one.kind))
  {
    if ShapeOf(u, s, i, arrayBracket) == Delimited { DelimitedText(s, i, Closing(s[i])); }
  }

  lemma DelimitedText(s: Text, i: nat, close: Byte)
    requires i < |s| && Body(s[i + 1..], close, false).Success?
    ensures var b := Body(s[i + 1..], close, false).value;
            s[i..|s| - |b.rest|] == [s[i]] + Doubled(b.value, close) + [close]
  {
    var b := Body(s[i + 1..], close, false).value;
    BodyWithoutEscapes(s[i + 1..], close);
    BehindPart(s, i, Doubled(b.value, close) + [close], b.rest);
    assert [s[i]] + (Doubled(b.value, close) + [close]) == [s[i]] + Doubled(b.value, close) + [close];
  }

  lemma BehindPart(s: Text, i: nat, part: Text, rest: Text)
    requires i < |s| && s[i + 1..] == part + rest
    ensures s[i..|s| - |rest|] == [s[i]] + part
  {
    assert s[i + 1..|s| - |rest|] == s[i + 1..][..|part|];
  }

  // Every token says what its kind promises; a quoted name is the doubled form of the decoded one.
  lemma {:induction false} TokensWellFormed(u: Unicode, s: Text, i: nat, before: seq<Token>)
    requires i <= |s| && LexFrom(u, s, i, before).Success?
    requires forall t :: t in before ==> WellFormed(t)
    ensures forall t :: t in LexFrom(u, s, i, before).value ==> WellFormed(t)
    decreases |s| - i
  {
    if i < |s| {
      var one := Scan(u, s, i, ArrayBracket(u, before)).value;
      ScanWellFormed(u, s, i, ArrayBracket(u, before));
      TokensWellFormed(u, s, one.end, before + [Token(s[i..one.end], one.name, one.kind)]);
    }
  }

  function Quote(name: Text): (r: Text)
    ensures |r| >= 2 && r[0] == DOUBLE
  {
    Enclosed(name, DOUBLE)
  }

  // Wherever a quoted name is written, the lexer reads one token and decodes the name, whatever comes before.
  lemma QuotedNameDecodes(u: Unicode, before: Text, name: Text, after: Text, arrayBracket: bool)
    requires after == [] || after[0] != DOUBLE
    ensures var s := before + Quote(name) + after;
            Scan(u, s, |before|, arrayBracket) == Success(Lexeme(QuotedName, |before| + |Quote(name)|, name))
  {
    var s := before + Quote(name) + after;
    BodyOfEnclosed(name, DOUBLE, after);
    assert s[|before| + 1..] == (Quote(name) + after)[1..];
  }

  lemma QuotedNameLexes(u: Unicode, name: Text)
    ensures Lexed(u, Quote(name)) == Success([Token(Quote(name), name, QuotedName)])
  {
    QuotedNameDecodes(u, [], name, [], ArrayBracket(u, []));
    var s := Quote(name);
    assert [] + s + [] == s && s[0..|s|] == s;
    assert Scan(u, s, 0, ArrayBracket(u, [])) == Success(Lexeme(QuotedName, |s|, name));
    var tokens := [] + [Token(s, name, QuotedName)];
    assert tokens == [Token(s, name, QuotedName)];
    assert LexFrom(u, s, |s|, tokens) == Success(tokens);
    assert LexFrom(u, s, 0, []) == LexFrom(u, s, |s|, tokens);
  }

  // An ordinary string literal ends where a reader of doubled quotes ends it.
  lemma {:induction false} StringEndReads(s: Text, i: nat)
    requires i <= |s|
    ensures var body := Body(s[i..], QUOTE, false);
            match StringEnd(s, i, false)
            case None => body.Failure?
            case Some(end) => body.Success? && body.value.rest == s[end..]
    decreases |s| - i
  {
    if i < |s| {
      assert s[i..][1..] == s[i + 1..];
      if At(s, i, QUOTE, QUOTE) {
        assert s[i..][2..] == s[i + 2..];
        StringEndReads(s, i + 2);
      } else if s[i] != QUOTE {
        StringEndReads(s, i + 1);
      }
    }
  }

  lemma LiteralText(u: Unicode, s: Text, i: nat, arrayBracket: bool)
    requires i < |s| && s[i] == QUOTE
    ensures var body := Body(s[i + 1..], QUOTE, false);
            match Scan(u, s, i, arrayBracket)
            case Failure(_) => body.Failure?
            case Success(one) =>
              body.Success? && one.kind == StringLiteral && s[i..one.end] == Enclosed(body.value.value, QUOTE)
  {
    StringEndReads(s, i + 1);
    var body := Body(s[i + 1..], QUOTE, false);
    if body.Success? { DelimitedText(s, i, QUOTE); }
  }
}
