// Rewriting MySQL string literals with backslash escapes into literals with doubled quotes only
// (normalizeMySQLStrings in datamigrate/pgmysql_target.go), against independent readers of SQL text.
module StringLiterals {
  import opened Wrappers
  import opened Encoding

  type Text = seq<Byte>

  const QUOTE: Byte := 39
  const BACKSLASH: Byte := 92
  const DOUBLE: Byte := 34
  const BACKTICK: Byte := 96

  datatype Error = Unclosed | IncompleteEscape | UnsupportedEscape

  // What a text says: bytes outside literals, literal values, and (for a reader that knows them) quoted names.
  datatype Segment = Plain(c: Byte) | Literal(value: Text) | Name(quote: Byte, name: Text)

  // escapes: backslash escapes count inside literals; names: backticks and double quotes delimit names.
  datatype Dialect = Dialect(escapes: bool, names: bool)

  datatype Quoted = Quoted(value: Text, rest: Text)

  function Unescape(c: Byte): Option<Byte> {
    if c == 48 then Some(0)          // 0
    else if c == 110 then Some(10)   // n
    else if c == 114 then Some(13)   // r
    else if c == 116 then Some(9)    // t
    else if c == 98 then Some(8)     // b
    else if c == 90 then Some(26)    // Z
    else if c == BACKSLASH || c == QUOTE || c == DOUBLE then Some(c)
    else None
  }

  // The letter that stands for a byte behind a backslash.
  function EscapeLetter(b: Byte): Option<char> {
    if b == 0 then Some('0')
    else if b == 10 then Some('n')
    else if b == 13 then Some('r')
    else if b == 9 then Some('t')
    else if b == 8 then Some('b')
    else if b == 26 then Some('Z')
    else if b == 92 then Some('\\')
    else if b == 39 then Some('\'')
    else if b == 34 then Some('"')
    else None
  }

  // Decoding undoes exactly this table.
  lemma UnescapeExactly(c: Byte, b: Byte)
    ensures Unescape(c) == Some(b) <==> EscapeLetter(b) == Some(c as char)
  {}

  function EscapedOne(b: Byte): Text {
    if EscapeLetter(b).Some? then [BACKSLASH, EscapeLetter(b).value as int] else [b]
  }

  // How a value is written with escapes, by a writer that escapes whatever it can.
  function Escaped(v: Text): Text { if v == [] then [] else EscapedOne(v[0]) + Escaped(v[1..]) }

  lemma OneReadsBack(b: Byte, tail: Text)
    ensures Body(EscapedOne(b) + tail, QUOTE, true) == Cons(b, Body(tail, QUOTE, true))
  {
    var s := EscapedOne(b) + tail;
    if EscapeLetter(b).Some? {
      UnescapeExactly(EscapeLetter(b).value as int, b);
      assert s[2..] == tail;
    } else {
      assert s[1..] == tail;
    }
  }

  // Reading returns every value that was written so.
  lemma {:induction false} EscapedReadsBack(v: Text, rest: Text)
    requires rest == [] || rest[0] != QUOTE
    ensures Body(Escaped(v) + [QUOTE] + rest, QUOTE, true) == Success(Quoted(v, rest))
  {
    if v == [] {
      assert ([QUOTE] + rest)[1..] == rest;
      assert Escaped(v) + [QUOTE] + rest == [QUOTE] + rest;
    } else {
      var tail := Escaped(v[1..]) + [QUOTE] + rest;
      EscapedReadsBack(v[1..], rest);
      OneReadsBack(v[0], tail);
      assert v == [v[0]] + v[1..];
      assert Escaped(v) + [QUOTE] + rest == EscapedOne(v[0]) + tail;
    }
  }

  function Cons(c: Byte, r: Result<Quoted, Error>): Result<Quoted, Error> {
    if r.Success? then Success(r.value.(value := [c] + r.value.value)) else r
  }

  // Reads up to the closing quote; a doubled quote stands for one.
  function Body(s: Text, q: Byte, escapes: bool): (r: Result<Quoted, Error>)
    ensures r.Success? ==> |r.value.rest| < |s|
    ensures r.Success? ==> r.value.rest == [] || r.value.rest[0] != q
  {
    if s == [] then Failure(Unclosed)
    else if s[0] == q then
      if |s| > 1 && s[1] == q then Cons(q, Body(s[2..], q, escapes)) else Success(Quoted([], s[1..]))
    else if escapes && s[0] == BACKSLASH then
      if |s| == 1 then Failure(IncompleteEscape)
      else
        var c := Unescape(s[1]);
        if c.None? then Failure(UnsupportedEscape) else Cons(c.value, Body(s[2..], q, escapes))
    else Cons(s[0], Body(s[1..], q, escapes))
  }

  function Then(segments: seq<Segment>, r: Result<seq<Segment>, Error>): Result<seq<Segment>, Error> {
    if r.Success? then Success(segments + r.value) else r
  }

  function Read(s: Text, d: Dialect): Result<seq<Segment>, Error>
    decreases |s|
  {
    if s == [] then Success([])
    else if s[0] == QUOTE then
      var body := Body(s[1..], QUOTE, d.escapes);
      if body.Failure? then Failure(body.error)
      else Then([Literal(body.value.value)], Read(body.value.rest, d))
    else if d.names && (s[0] == DOUBLE || s[0] == BACKTICK) then
      var body := Body(s[1..], s[0], false);
      if body.Failure? then Failure(body.error)
      else Then([Name(s[0], body.value.value)], Read(body.value.rest, d))
    else Then([Plain(s[0])], Read(s[1..], d))
  }

  // ---- Writing ----

  function Doubled(v: Text, q: Byte): Text {
    if v == [] then [] else (if v[0] == q then [q, q] else [v[0]]) + Doubled(v[1..], q)
  }

  function Enclosed(v: Text, q: Byte): Text { [q] + Doubled(v, q) + [q] }

  function WriteOne(s: Segment): Text {
    match s
    case Plain(c) => [c]
    case Literal(v) => Enclosed(v, QUOTE)
    case Name(q, v) => Enclosed(v, q)
  }

  function Write(segments: seq<Segment>): Text {
    if segments == [] then [] else WriteOne(segments[0]) + Write(segments[1..])
  }

  lemma WriteCons(s: Segment, rest: seq<Segment>)
    ensures Write([s] + rest) == WriteOne(s) + Write(rest)
  {
    assert ([s] + rest)[1..] == rest;
  }

  lemma DoubledCons(c: Byte, v: Text, q: Byte)
    ensures Doubled([c] + v, q) == (if c == q then [q, q] else [c]) + Doubled(v, q)
  {
    assert ([c] + v)[1..] == v;
  }

  // ---- The rewrite ----

  // What the rewrite is for: read with escapes, write with doubled quotes.
  function Normal(s: Text): Result<Text, Error> {
    var read := Read(s, Dialect(true, false));
    if read.Success? then Success(Write(read.value)) else Failure(read.error)
  }

  // The same from inside a literal.
  function InLiteral(s: Text): Result<Text, Error> {
    var body := Body(s, QUOTE, true);
    if body.Failure? then Failure(body.error)
    else Prefix(Doubled(body.value.value, QUOTE) + [QUOTE], Normal(body.value.rest))
  }

  function Prefix(t: Text, r: Result<Text, Error>): Result<Text, Error> {
    if r.Success? then Success(t + r.value) else r
  }

  lemma PrefixPrefix(a: Text, b: Text, r: Result<Text, Error>)
    ensures Prefix(a, Prefix(b, r)) == Prefix(a + b, r)
  {
    if r.Success? { assert a + (b + r.value) == (a + b) + r.value; }
  }

  lemma NormalNext(s: Text)
    requires s != []
    ensures Normal(s) == Prefix([s[0]], if s[0] == QUOTE then InLiteral(s[1..]) else Normal(s[1..]))
  {
    var d := Dialect(true, false);
    if s[0] == QUOTE {
      var body := Body(s[1..], QUOTE, true);
      if body.Success? {
        var rest := Read(body.value.rest, d);
        if rest.Success? {
          WriteCons(Literal(body.value.value), rest.value);
          PrefixPrefix([QUOTE], Doubled(body.value.value, QUOTE) + [QUOTE], Normal(body.value.rest));
          assert [QUOTE] + (Doubled(body.value.value, QUOTE) + [QUOTE]) == Enclosed(body.value.value, QUOTE);
        }
      }
    } else {
      var rest := Read(s[1..], d);
      if rest.Success? { WriteCons(Plain(s[0]), rest.value); }
    }
  }

  lemma LiteralNext(s: Text, c: Byte, next: Text)
    requires Body(s, QUOTE, true) == Cons(c, Body(next, QUOTE, true))
    ensures InLiteral(s) == Prefix(if c == QUOTE then [QUOTE, QUOTE] else [c], InLiteral(next))
  {
    var body := Body(next, QUOTE, true);
    if body.Success? {
      var v, one := body.value.value, if c == QUOTE then [QUOTE, QUOTE] else [c];
      DoubledCons(c, v, QUOTE);
      assert (one + Doubled(v, QUOTE)) + [QUOTE] == one + (Doubled(v, QUOTE) + [QUOTE]);
      PrefixPrefix(one, Doubled(v, QUOTE) + [QUOTE], Normal(body.value.rest));
    }
  }

  // Where the rewrite stands: out is written and position i comes next, outside or inside a literal.
  ghost predicate Outside(s: Text, out: Text, i: nat) {
    i <= |s| && Normal(s) == Prefix(out, Normal(s[i..]))
  }

  ghost predicate Inside(s: Text, out: Text, i: nat) {
    i <= |s| && Normal(s) == Prefix(out, InLiteral(s[i..]))
  }

  lemma OutsideNext(s: Text, out: Text, i: nat)
    requires i < |s| && Outside(s, out, i)
    ensures if s[i] == QUOTE then Inside(s, out + [QUOTE], i + 1) else Outside(s, out + [s[i]], i + 1)
  {
    NormalNext(s[i..]);
    assert s[i..][1..] == s[i + 1..];
    PrefixPrefix(out, [s[i]], if s[i] == QUOTE then InLiteral(s[i + 1..]) else Normal(s[i + 1..]));
  }

  lemma InsideNext(s: Text, out: Text, i: nat)
    requires i < |s| && s[i] != QUOTE && s[i] != BACKSLASH && Inside(s, out, i)
    ensures Inside(s, out + [s[i]], i + 1)
  {
    assert s[i..][1..] == s[i + 1..];
    LiteralNext(s[i..], s[i], s[i + 1..]);
    PrefixPrefix(out, [s[i]], InLiteral(s[i + 1..]));
  }

  lemma InsideDoubled(s: Text, out: Text, i: nat)
    requires i + 1 < |s| && s[i] == s[i + 1] == QUOTE && Inside(s, out, i)
    ensures Inside(s, out + [QUOTE] + [QUOTE], i + 2)
  {
    assert s[i..][2..] == s[i + 2..];
    LiteralNext(s[i..], QUOTE, s[i + 2..]);
    PrefixPrefix(out, [QUOTE, QUOTE], InLiteral(s[i + 2..]));
    assert out + [QUOTE] + [QUOTE] == out + [QUOTE, QUOTE];
  }

  lemma InsideEscape(s: Text, out: Text, i: nat)
    requires i < |s| && s[i] == BACKSLASH && Inside(s, out, i)
    ensures i + 1 == |s| ==> Normal(s) == Failure(IncompleteEscape)
    ensures i + 1 < |s| && Unescape(s[i + 1]).None? ==> Normal(s) == Failure(UnsupportedEscape)
    ensures i + 1 < |s| && Unescape(s[i + 1]).Some? ==>
      var c := Unescape(s[i + 1]).value;
      Inside(s, out + (if c == QUOTE then [QUOTE, QUOTE] else [c]), i + 2)
  {
    if i + 1 < |s| && Unescape(s[i + 1]).Some? {
      var c := Unescape(s[i + 1]).value;
      assert s[i..][2..] == s[i + 2..];
      LiteralNext(s[i..], c, s[i + 2..]);
      PrefixPrefix(out, if c == QUOTE then [QUOTE, QUOTE] else [c], InLiteral(s[i + 2..]));
    }
  }

  lemma InsideCloses(s: Text, out: Text, i: nat)
    requires i < |s| && s[i] == QUOTE && !(i + 1 < |s| && s[i + 1] == QUOTE) && Inside(s, out, i)
    ensures Outside(s, out + [QUOTE], i + 1)
  {
    assert s[i..][1..] == s[i + 1..];
    assert Doubled([], QUOTE) + [QUOTE] == [QUOTE];
    PrefixPrefix(out, [QUOTE], Normal(s[i + 1..]));
  }

  lemma Ends(s: Text, out: Text)
    ensures Outside(s, out, |s|) ==> Normal(s) == Success(out)
    ensures Inside(s, out, |s|) ==> Normal(s) == Failure(Unclosed)
    ensures Outside(s, [], 0)
  {
    assert s[|s|..] == [] && out + Write([]) == out;
    assert s[0..] == s;
    PrefixEmpty(Normal(s));
  }

  method NormalizeMySQLStrings(s: Text) returns (r: Result<Text, Error>)
    ensures r == Normal(s)
  {
    var out: Text, i := [], 0;
    Ends(s, out);
    while i < |s|
      invariant i <= |s| && Outside(s, out, i)
    {
      OutsideNext(s, out, i);
      if s[i] != QUOTE {
        out := out + [s[i]];
        i := i + 1;
        continue;
      }
      out := out + [QUOTE];
      i := i + 1;
      var closed := false;
      while i < |s|
        invariant i <= |s| && !closed && Inside(s, out, i)
      {
        var c := s[i];
        if c == QUOTE {
          if i + 1 < |s| && s[i + 1] == QUOTE {
            InsideDoubled(s, out, i);
            out := out + [c] + [QUOTE];
            i := i + 2;
            continue;
          }
          InsideCloses(s, out, i);
          out := out + [c];
          closed := true;
          break;
        }
        if c == BACKSLASH {
          InsideEscape(s, out, i);
          i := i + 1;
          if i >= |s| { return Failure(IncompleteEscape); }
          match s[i] {
            case 48 => c := 0;
            case 110 => c := 10;
            case 114 => c := 13;
            case 116 => c := 9;
            case 98 => c := 8;
            case 90 => c := 26;
            case 92 | 39 | 34 => c := s[i];
            case _ => return Failure(UnsupportedEscape);
          }
        } else {
          InsideNext(s, out, i);
        }
        out := out + if c == QUOTE then [QUOTE, QUOTE] else [c];
        i := i + 1;
      }
      if !closed {
        Ends(s, out);
        return Failure(Unclosed);
      }
      i := i + 1;
    }
    Ends(s, out);
    r := Success(out);
  }

  lemma PrefixEmpty(r: Result<Text, Error>)
    ensures Prefix([], r) == r
  {
    if r.Success? { assert [] + r.value == r.value; }
  }

  // ---- The rewrite keeps the meaning ----

  // A doubled value, closed by a quote that no other quote follows, reads back as itself.
  lemma {:induction false} BodyOfDoubled(v: Text, q: Byte, rest: Text)
    requires rest == [] || rest[0] != q
    ensures Body(Doubled(v, q) + [q] + rest, q, false) == Success(Quoted(v, rest))
  {
    if v == [] {
      assert Doubled(v, q) + [q] + rest == [q] + rest;
    } else {
      var tail := Doubled(v[1..], q) + [q] + rest;
      BodyOfDoubled(v[1..], q, rest);
      var one := if v[0] == q then [q, q] else [v[0]];
      BodyCons(v[0], q, tail);
      assert Doubled(v, q) + [q] + rest == one + tail;
      assert [v[0]] + v[1..] == v;
    }
  }

  lemma BodyCons(c: Byte, q: Byte, tail: Text)
    ensures Body((if c == q then [q, q] else [c]) + tail, q, false) == Cons(c, Body(tail, q, false))
  {
    assert ([q, q] + tail)[2..] == tail && ([c] + tail)[1..] == tail;
  }

  // The written text starts like the one that was read.
  lemma StartsAlike(s: Text, d: Dialect)
    requires Read(s, d).Success?
    ensures s == [] <==> Write(Read(s, d).value) == []
    ensures s != [] ==> Write(Read(s, d).value)[0] == s[0]
  {
    if s != [] {
      var all := Read(s, d).value;
      assert all == [all[0]] + all[1..];
      WriteCons(all[0], all[1..]);
      assert WriteOne(all[0])[0] == s[0];
    }
  }

  // Read with doubled quotes only, the written text says what the original said with escapes.
  lemma {:induction false} Preserves(s: Text, names: bool)
    requires Read(s, Dialect(true, names)).Success?
    ensures var said := Read(s, Dialect(true, names)).value; Read(Write(said), Dialect(false, names)) == Success(said)
    decreases |s|
  {
    if s != [] {
      var d := Dialect(true, names);
      var all := Read(s, d).value;
      var quoted := s[0] == QUOTE || (names && (s[0] == DOUBLE || s[0] == BACKTICK));
      var next := if quoted then Body(s[1..], s[0], s[0] == QUOTE).value.rest else s[1..];
      var rest := Read(next, d).value;
      assert all == [all[0]] + rest;
      Preserves(next, names);
      StartsAlike(next, d);
      WriteCons(all[0], rest);
      ReadOne(all[0], Write(rest), names);
    }
  }

  // One written segment in front of a text that does not start with the same quote.
  lemma ReadOne(one: Segment, rest: Text, names: bool)
    requires match one
             case Plain(c) => c != QUOTE && (names ==> c != DOUBLE && c != BACKTICK)
             case Literal(_) => rest == [] || rest[0] != QUOTE
             case Name(q, _) => names && (q == DOUBLE || q == BACKTICK) && (rest == [] || rest[0] != q)
    ensures Read(WriteOne(one) + rest, Dialect(false, names)) == Then([one], Read(rest, Dialect(false, names)))
  {
    match one
    case Plain(c) => assert ([c] + rest)[1..] == rest;
    case Literal(v) => BodyOfEnclosed(v, QUOTE, rest);
    case Name(q, v) => BodyOfEnclosed(v, q, rest);
  }

  lemma BodyOfEnclosed(v: Text, q: Byte, rest: Text)
    requires rest == [] || rest[0] != q
    ensures var s := Enclosed(v, q) + rest; s[0] == q && Body(s[1..], q, false) == Success(Quoted(v, rest))
  {
    assert (Enclosed(v, q) + rest)[1..] == Doubled(v, q) + [q] + rest;
    BodyOfDoubled(v, q, rest);
  }

  // ---- Texts with quoted names ----

  ghost predicate NamesWithoutApostrophe(segments: seq<Segment>) {
    forall i :: 0 <= i < |segments| && segments[i].Name? ==> QUOTE !in segments[i].name
  }

  lemma {:induction false} NormalKeeps(t: Text, rest: Text)
    requires QUOTE !in t
    ensures Normal(t + rest) == Prefix(t, Normal(rest))
  {
    if t == [] {
      assert t + rest == rest;
      PrefixEmpty(Normal(rest));
    } else {
      NormalKeeps(t[1..], rest);
      NormalNext(t + rest);
      assert (t + rest)[1..] == t[1..] + rest;
      PrefixPrefix([t[0]], t[1..], Normal(rest));
      assert [t[0]] + t[1..] == t;
    }
  }

  lemma {:induction false} BodyWithoutEscapes(s: Text, q: Byte)
    requires Body(s, q, false).Success?
    ensures var b := Body(s, q, false).value; s == Doubled(b.value, q) + [q] + b.rest
    decreases |s|
  {
    if s[0] == q && |s| > 1 && s[1] == q {
      BodyWithoutEscapes(s[2..], q);
      DoubledLonger(s, [q, q], q, Body(s[2..], q, false).value, q);
    } else if s[0] != q {
      BodyWithoutEscapes(s[1..], q);
      DoubledLonger(s, [s[0]], s[0], Body(s[1..], q, false).value, q);
    }
  }

  // One byte more, in front of a body that is written back.
  lemma DoubledLonger(s: Text, first: Text, c: Byte, t: Quoted, q: Byte)
    requires first == (if c == q then [q, q] else [c]) && s == first + (Doubled(t.value, q) + [q] + t.rest)
    ensures s == Doubled([c] + t.value, q) + [q] + t.rest
  {
    DoubledCons(c, t.value, q);
  }

  lemma {:induction false} DoubledWithout(v: Text, q: Byte)
    requires q != QUOTE && QUOTE !in v
    ensures QUOTE !in Doubled(v, q)
  {
    if v != [] { DoubledWithout(v[1..], q); }
  }

  lemma {:induction false} WritesWhatNamesRead(s: Text)
    requires Read(s, Dialect(true, true)).Success? && NamesWithoutApostrophe(Read(s, Dialect(true, true)).value)
    ensures Normal(s) == Success(Write(Read(s, Dialect(true, true)).value))
    decreases |s|
  {
    if s != [] {
      var d := Dialect(true, true);
      var all := Read(s, d).value;
      var quoted := s[0] == QUOTE || s[0] == DOUBLE || s[0] == BACKTICK;
      var next := if quoted then Body(s[1..], s[0], s[0] == QUOTE).value.rest else s[1..];
      var rest := Read(next, d).value;
      assert all == [all[0]] + rest && all[1..] == rest;
      WritesWhatNamesRead(next);
      WriteCons(all[0], rest);
      if s[0] == DOUBLE || s[0] == BACKTICK {
        NameKept(s, s[0]);
      } else {
        NormalNext(s);
        if s[0] == QUOTE {
          var v := Doubled(Body(s[1..], QUOTE, true).value.value, QUOTE);
          PrefixPrefix([QUOTE], v + [QUOTE], Normal(next));
          assert [QUOTE] + (v + [QUOTE]) == [QUOTE] + v + [QUOTE];
        }
      }
    }
  }

  lemma NameKept(s: Text, q: Byte)
    requires s != [] && s[0] == q != QUOTE && Body(s[1..], q, false).Success?
    requires QUOTE !in Body(s[1..], q, false).value.value
    ensures var b := Body(s[1..], q, false).value; Normal(s) == Prefix(Enclosed(b.value, q), Normal(b.rest))
  {
    var b := Body(s[1..], q, false).value;
    BodyWithoutEscapes(s[1..], q);
    DoubledWithout(b.value, q);
    NormalKeeps(Enclosed(b.value, q), b.rest);
    assert s == Enclosed(b.value, q) + b.rest;
  }

  // When apostrophes delimit literals only, the rewrite succeeds on every readable text and the result,
  // read with doubled quotes, has the same names, the same literal values and the same other bytes.
  lemma NamesAndLiteralsKept(s: Text)
    requires Read(s, Dialect(true, true)).Success? && NamesWithoutApostrophe(Read(s, Dialect(true, true)).value)
    ensures Normal(s).Success? && Read(Normal(s).value, Dialect(false, true)) == Read(s, Dialect(true, true))
  {
    WritesWhatNamesRead(s);
    Preserves(s, true);
  }

  lemma EnclosedBody(t: Text)
    requires t != [] && Body(t[1..], t[0], false).Success?
    ensures var b := Body(t[1..], t[0], false).value; t == Enclosed(b.value, t[0]) + b.rest
  {
    BodyWithoutEscapes(t[1..], t[0]);
    assert t == [t[0]] + t[1..];
  }

  // Without escapes a text is the only one that reads as it does.
  lemma {:induction false} OnlyText(t: Text, names: bool)
    requires Read(t, Dialect(false, names)).Success?
    ensures Write(Read(t, Dialect(false, names)).value) == t
    decreases |t|
  {
    if t != [] {
      var d := Dialect(false, names);
      if t[0] == QUOTE || (names && (t[0] == DOUBLE || t[0] == BACKTICK)) {
        var b := Body(t[1..], t[0], false).value;
        var one := if t[0] == QUOTE then Literal(b.value) else Name(t[0], b.value);
        assert Read(t, d) == Then([one], Read(b.rest, d));
        OnlyText(b.rest, names);
        WriteCons(one, Read(b.rest, d).value);
        EnclosedBody(t);
      } else {
        OnlyText(t[1..], names);
        WriteCons(Plain(t[0]), Read(t[1..], d).value);
      }
    }
  }

  // What is asked of the rewrite of a text with quoted names.
  ghost predicate Kept(s: Text) {
    Normal(s).Success? && Read(Normal(s).value, Dialect(false, true)) == Read(s, Dialect(true, true))
  }

  lemma KeptAsWritten(s: Text)
    requires Read(s, Dialect(true, true)).Success?
    ensures Kept(s) <==> Normal(s) == Success(Write(Read(s, Dialect(true, true)).value))
  {
    Preserves(s, true);
    if Kept(s) { OnlyText(Normal(s).value, true); }
  }

  // ---- Where escapes are decoded ----

  // Where a reader stands. A doubled quote leaves what it delimits and enters it again.
  datatype State = Out | InString | InName(quote: Byte)

  function After(st: State, c: Byte, names: bool): State {
    match st
    case Out => if c == QUOTE then InString else if names && (c == DOUBLE || c == BACKTICK) then InName(c) else Out
    case InString => if c == QUOTE then Out else InString
    case InName(q) => if c == q then Out else st
  }

  // The positions of the backslashes that a reader with escapes decodes, in a text that begins at `at`.
  function EscapesFrom(s: Text, st: State, at: nat, names: bool): (e: set<nat>)
    ensures forall k :: k in e ==> at <= k < at + |s| && s[k - at] == BACKSLASH
    decreases |s|
  {
    if s == [] then {}
    else if st == InString && s[0] == BACKSLASH then
      {at} + if |s| == 1 then {} else EscapesFrom(s[2..], InString, at + 2, names)
    else EscapesFrom(s[1..], After(st, s[0], names), at + 1, names)
  }

  function Escapes(s: Text, names: bool): set<nat> { EscapesFrom(s, Out, 0, names) }

  function One(c: Byte): Text { if c == QUOTE then [QUOTE, QUOTE] else [c] }

  // The text that a reader in a given state would write, byte by byte.
  function Rewritten(s: Text, st: State, names: bool): Result<Text, Error>
    decreases |s|
  {
    if s == [] then if st == Out then Success([]) else Failure(Unclosed)
    else if st == InString && s[0] == BACKSLASH then
      if |s| == 1 then Failure(IncompleteEscape)
      else
        var c := Unescape(s[1]);
        if c.None? then Failure(UnsupportedEscape) else Prefix(One(c.value), Rewritten(s[2..], InString, names))
    else Prefix([s[0]], Rewritten(s[1..], After(st, s[0], names), names))
  }

  // It is the text that the reader of segments writes.
  lemma {:induction false} RewrittenReads(s: Text, names: bool)
    ensures var read := Read(s, Dialect(true, names));
            Rewritten(s, Out, names) == if read.Success? then Success(Write(read.value)) else Failure(read.error)
    decreases |s|
  {
    if s != [] {
      var d := Dialect(true, names);
      if s[0] == QUOTE || (names && (s[0] == DOUBLE || s[0] == BACKTICK)) {
        var inside := if s[0] == QUOTE then InString else InName(s[0]);
        RewrittenBody(s[1..], s[0], inside, names);
        var body := Body(s[1..], s[0], s[0] == QUOTE);
        if body.Success? {
          RewrittenReads(body.value.rest, names);
          var one := if s[0] == QUOTE then Literal(body.value.value) else Name(s[0], body.value.value);
          var read := Read(body.value.rest, d);
          if read.Success? { WriteCons(one, read.value); }
          var v := Doubled(body.value.value, s[0]);
          PrefixPrefix([s[0]], v + [s[0]], Rewritten(body.value.rest, Out, names));
          assert [s[0]] + (v + [s[0]]) == [s[0]] + v + [s[0]];
        }
      } else {
        RewrittenReads(s[1..], names);
        var read := Read(s[1..], d);
        if read.Success? { WriteCons(Plain(s[0]), read.value); }
      }
    }
  }

  // From inside a literal or a name: the rest of the value, its closing quote and what follows.
  lemma {:induction false} RewrittenBody(s: Text, q: Byte, st: State, names: bool)
    requires st == if q == QUOTE then InString else InName(q)
    requires q == QUOTE || (names && (q == DOUBLE || q == BACKTICK))
    ensures var body := Body(s, q, q == QUOTE);
            Rewritten(s, st, names) == if body.Failure? then Failure(body.error)
              else Prefix(Doubled(body.value.value, q) + [q], Rewritten(body.value.rest, Out, names))
    decreases |s|
  {
    if s == [] {
    } else if s[0] == q && |s| > 1 && s[1] == q {
      RewrittenBody(s[2..], q, st, names);
      assert s[1..][1..] == s[2..] && s[1..][0] == q;
      assert Rewritten(s[1..], Out, names) == Prefix([q], Rewritten(s[2..], st, names));
      PrefixPrefix([q], [q], Rewritten(s[2..], st, names));
      assert [q] + [q] == [q, q];
      BodyWritten(q, s[2..], q, names);
    } else if s[0] == q {
      assert Doubled([], q) + [q] == [q];
    } else if q == QUOTE && s[0] == BACKSLASH {
      if |s| > 1 && Unescape(s[1]).Some? {
        RewrittenBody(s[2..], q, st, names);
        BodyWritten(Unescape(s[1]).value, s[2..], q, names);
      }
    } else {
      RewrittenBody(s[1..], q, st, names);
      BodyWritten(s[0], s[1..], q, names);
    }
  }

  // One more byte of a value in front.
  lemma BodyWritten(c: Byte, s: Text, q: Byte, names: bool)
    ensures var body := Body(s, q, q == QUOTE);
            body.Success? ==>
              var rest := Rewritten(body.value.rest, Out, names);
              Prefix(if c == q then [q, q] else [c], Prefix(Doubled(body.value.value, q) + [q], rest))
              == Prefix(Doubled([c] + body.value.value, q) + [q], rest)
  {
    var body := Body(s, q, q == QUOTE);
    if body.Success? {
      var v, one := body.value.value, if c == q then [q, q] else [c];
      DoubledCons(c, v, q);
      assert (one + Doubled(v, q)) + [q] == one + (Doubled(v, q) + [q]);
      PrefixPrefix(one, Doubled(v, q) + [q], Rewritten(body.value.rest, Out, names));
    }
  }

  // How many backslashes a text begins with.
  function Lead(s: Text): nat { if s == [] || s[0] != BACKSLASH then 0 else 1 + Lead(s[1..]) }

  // Inside a literal every two backslashes become one, and what follows them does not begin with one.
  lemma {:induction false} LeadHalved(s: Text, names: bool)
    requires Rewritten(s, InString, names).Success?
    ensures Lead(Rewritten(s, InString, names).value) == Lead(s) / 2
    decreases |s|
  {
    if s[0] == BACKSLASH {
      var rest := Rewritten(s[2..], InString, names).value;
      if s[1] == BACKSLASH {
        LeadHalved(s[2..], names);
        assert s[1..][1..] == s[2..];
        assert ([BACKSLASH] + rest)[1..] == rest;
      } else {
        assert s[1..][0] == s[1];
      }
    }
  }

  // Outside literals backslashes stay.
  lemma {:induction false} LeadKept(s: Text, st: State, names: bool)
    requires st != InString && st != InName(BACKSLASH) && Rewritten(s, st, names).Success?
    ensures Lead(Rewritten(s, st, names).value) >= Lead(s)
    decreases |s|
  {
    if s != [] && s[0] == BACKSLASH {
      LeadKept(s[1..], st, names);
      var rest := Rewritten(s[1..], st, names).value;
      assert ([BACKSLASH] + rest)[1..] == rest;
    }
  }

  // Two readings of one text write the same exactly if they decode the same escapes: where only one of
  // them decodes, the other writes at least twice as many backslashes.
  lemma {:induction false} SameEscapes(s: Text, a: State, m: bool, b: State, n: bool, at: nat)
    requires a != InName(BACKSLASH) && b != InName(BACKSLASH)
    requires Rewritten(s, a, m).Success? && Rewritten(s, b, n).Success?
    ensures Rewritten(s, a, m) == Rewritten(s, b, n) <==> EscapesFrom(s, a, at, m) == EscapesFrom(s, b, at, n)
    decreases |s|
  {
    if s != [] {
      if s[0] == BACKSLASH && (a == InString) != (b == InString) {
        OneDecodes(s, a, m, b, n, at);
      } else if s[0] == BACKSLASH && a == InString {
        SameEscapes(s[2..], a, m, b, n, at + 2);
        var x, y := Rewritten(s[2..], a, m).value, Rewritten(s[2..], b, n).value;
        SamePrefix(One(Unescape(s[1]).value), x, y);
        WithFirst(at, EscapesFrom(s[2..], a, at + 2, m), EscapesFrom(s[2..], b, at + 2, n));
      } else {
        SameEscapes(s[1..], After(a, s[0], m), m, After(b, s[0], n), n, at + 1);
        SamePrefix([s[0]], Rewritten(s[1..], After(a, s[0], m), m).value,
          Rewritten(s[1..], After(b, s[0], n), n).value);
      }
    }
  }

  lemma SamePrefix(t: Text, x: Text, y: Text)
    ensures t + x == t + y <==> x == y
  {
    assert (t + x)[|t|..] == x && (t + y)[|t|..] == y;
  }

  lemma WithFirst(at: nat, x: set<nat>, y: set<nat>)
    requires at !in x && at !in y
    ensures {at} + x == {at} + y <==> x == y
  {
    assert ({at} + x) - {at} == x && ({at} + y) - {at} == y;
  }

  lemma OneDecodes(s: Text, a: State, m: bool, b: State, n: bool, at: nat)
    requires s != [] && s[0] == BACKSLASH && (a == InString) != (b == InString)
    requires a != InName(BACKSLASH) && b != InName(BACKSLASH)
    requires Rewritten(s, a, m).Success? && Rewritten(s, b, n).Success?
    ensures Rewritten(s, a, m) != Rewritten(s, b, n) && EscapesFrom(s, a, at, m) != EscapesFrom(s, b, at, n)
  {
    if a == InString {
      LeadHalved(s, m);
      LeadKept(s, b, n);
      assert at in EscapesFrom(s, a, at, m) && at !in EscapesFrom(s, b, at, n);
    } else {
      LeadHalved(s, n);
      LeadKept(s, a, m);
      assert at in EscapesFrom(s, b, at, n) && at !in EscapesFrom(s, a, at, m);
    }
  }

  // For every text that is readable with its quoted names: all is kept exactly when the rewrite, which takes
  // every apostrophe for a delimiter, reads it to the end and decodes the very escapes that stand in literals.
  lemma KeptExactly(s: Text)
    requires Read(s, Dialect(true, true)).Success?
    ensures Kept(s) <==> Read(s, Dialect(true, false)).Success? && Escapes(s, false) == Escapes(s, true)
  {
    KeptAsWritten(s);
    RewrittenReads(s, true);
    RewrittenReads(s, false);
    if Read(s, Dialect(true, false)).Success? { SameEscapes(s, Out, false, Out, true, 0); }
  }

  function Apostrophes(s: Text): nat { if s == [] then 0 else (if s[0] == QUOTE then 1 else 0) + Apostrophes(s[1..]) }

  lemma {:induction false} BodyCounts(s: Text)
    requires BACKSLASH !in s
    ensures Body(s, QUOTE, true) == Body(s, QUOTE, false)
    ensures match Body(s, QUOTE, true)
            case Success(b) => BACKSLASH !in b.rest && (Apostrophes(s) + Apostrophes(b.rest)) % 2 == 1
            case Failure(_) => Apostrophes(s) % 2 == 0
    decreases |s|
  {
    if s != [] {
      if s[0] == QUOTE && |s| > 1 && s[1] == QUOTE {
        assert s[1..][1..] == s[2..];
        BodyCounts(s[2..]);
      } else if s[0] != QUOTE {
        BodyCounts(s[1..]);
      }
    }
  }

  lemma {:induction false} ReadCounts(s: Text)
    requires BACKSLASH !in s
    ensures Read(s, Dialect(true, false)) == Read(s, Dialect(false, false))
    ensures Read(s, Dialect(true, false)).Success? <==> Apostrophes(s) % 2 == 0
    decreases |s|
  {
    if s != [] {
      if s[0] == QUOTE {
        BodyCounts(s[1..]);
        var body := Body(s[1..], QUOTE, true);
        if body.Success? { ReadCounts(body.value.rest); }
      } else {
        ReadCounts(s[1..]);
      }
    }
  }

  // In particular, without backslashes: exactly when the apostrophes, in names or not, are even in number.
  lemma KeptWithoutBackslash(s: Text)
    requires Read(s, Dialect(true, true)).Success? && BACKSLASH !in s
    ensures Kept(s) <==> Apostrophes(s) % 2 == 0
  {
    KeptExactly(s);
    ReadCounts(s);
    assert Escapes(s, false) == {} && Escapes(s, true) == {};
  }

  lemma {:induction false} ReadsAsName(v: Text, names: Dialect)
    requires names.names && BACKTICK !in v
    ensures Read([BACKTICK] + v + [BACKTICK], names) == Success([Name(BACKTICK, v)])
  {
    DoubledSame(v, BACKTICK);
    BodyOfEnclosed(v, BACKTICK, []);
    assert Enclosed(v, BACKTICK) + [] == [BACKTICK] + v + [BACKTICK];
    assert Read([], names) == Success([]);
    assert [Name(BACKTICK, v)] + [] == [Name(BACKTICK, v)];
  }

  lemma {:induction false} DoubledSame(v: Text, q: Byte)
    requires q !in v
    ensures Doubled(v, q) == v
  {
    if v != [] { DoubledSame(v[1..], q); }
  }

  // An apostrophe inside a name is taken for the start of a literal: the name '\n' becomes another name.
  lemma ApostropheInNameChangesIt()
    ensures var was: Text, now: Text := [QUOTE, BACKSLASH, 110, QUOTE], [QUOTE, 10, QUOTE];
            && Read([BACKTICK] + was + [BACKTICK], Dialect(true, true)) == Success([Name(BACKTICK, was)])
            && Normal([BACKTICK] + was + [BACKTICK]) == Success([BACKTICK] + now + [BACKTICK])
            && Read([BACKTICK] + now + [BACKTICK], Dialect(false, true)) == Success([Name(BACKTICK, now)])
  {
    var was: Text, now: Text := [QUOTE, BACKSLASH, 110, QUOTE], [QUOTE, 10, QUOTE];
    ReadsAsName(was, Dialect(true, true));
    ReadsAsName(now, Dialect(false, true));
    RewrittenInName([BACKTICK] + was + [BACKTICK]);
    assert [BACKTICK] + now + [BACKTICK] == [BACKTICK] + [QUOTE] + [10 as Byte] + [QUOTE] + [BACKTICK];
  }

  lemma RewrittenInName(s: Text)
    requires s == [BACKTICK, QUOTE, BACKSLASH, 110, QUOTE, BACKTICK]
    ensures Normal(s) == Success([BACKTICK] + [QUOTE] + [10] + [QUOTE] + [BACKTICK])
  {
    Ends(s, []);
    OutsideNext(s, [], 0);
    var a: Text := [BACKTICK];
    assert [] + a == a;
    OutsideNext(s, a, 1);
    InsideEscape(s, a + [QUOTE], 2);
    InsideCloses(s, a + [QUOTE] + [10], 4);
    OutsideNext(s, a + [QUOTE] + [10] + [QUOTE], 5);
    Ends(s, a + [QUOTE] + [10] + [QUOTE] + [BACKTICK]);
  }
}
