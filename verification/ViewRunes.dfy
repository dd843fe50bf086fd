// The view lexer reads characters as UTF-8 defines them: RFC 3629, section 3.
module ViewRunes {
  import opened Encoding
  import opened StringLiterals
  import opened ViewLexer

  // What can be encoded: no surrogates, nothing above U+10FFFF.
  predicate Scalar(v: nat) { v < 0xD800 || 0xE000 <= v < 0x110000 }

  function Encode(v: nat): (s: Text)
    requires Scalar(v)
  {
    if v < 0x80 then [v]
    else if v < 0x800 then [0xC0 + v / 0x40, 0x80 + v % 0x40]
    else if v < 0x10000 then [0xE0 + v / 0x1000, 0x80 + v / 0x40 % 0x40, 0x80 + v % 0x40]
    else [0xF0 + v / 0x40000, 0x80 + v / 0x1000 % 0x40, 0x80 + v / 0x40 % 0x40, 0x80 + v % 0x40]
  }

  lemma TwoPlaces(v: nat)
    ensures v == v / 0x40 * 0x40 + v % 0x40
  {}

  lemma TwoDivisions(v: nat)
    ensures v / 0x40 / 0x40 == v / 0x1000 && v / 0x1000 / 0x40 == v / 0x40000
  {}

  lemma ThreePlaces(v: nat)
    ensures v == v / 0x1000 * 0x1000 + v / 0x40 % 0x40 * 0x40 + v % 0x40
  {
    var q := v / 0x40;
    TwoPlaces(v);
    TwoPlaces(q);
    TwoDivisions(v);
  }

  lemma FourPlaces(v: nat)
    ensures v == v / 0x40000 * 0x40000 + v / 0x1000 % 0x40 * 0x1000 + v / 0x40 % 0x40 * 0x40 + v % 0x40
  {
    var q := v / 0x1000;
    ThreePlaces(v);
    TwoPlaces(q);
    TwoDivisions(v);
  }

  // Every encoded character is read as that character, whatever follows.
  lemma DecodesEncoded(v: nat, rest: Text)
    requires Scalar(v)
    ensures Decode(Encode(v) + rest, 0) == Rune(v, |Encode(v)|)
  {
    if v < 0x80 {
    } else if v < 0x800 {
      TwoPlaces(v);
    } else if v < 0x10000 {
      ThreePlaces(v);
    } else {
      FourPlaces(v);
    }
  }

  // What is read as a character of several bytes is the encoding of that character; any other byte is read alone.
  lemma EncodesDecoded(s: Text, i: nat)
    requires i < |s|
    ensures var r := Decode(s, i);
            if s[i] < 0x80 || Encoded(s, i) then Scalar(r.value) && s[i..i + r.size] == Encode(r.value)
            else r == Rune(0xFFFD, 1)
  {
    var r := Decode(s, i);
    if s[i] >= 0x80 && Encoded(s, i) {
      if r.size == 2 {
        TwoBack(s[i] - 0xC0, s[i + 1] - 0x80);
      } else if r.size == 3 {
        ThreeBack(s[i] - 0xE0, s[i + 1] - 0x80, s[i + 2] - 0x80);
      } else {
        FourBack(s[i] - 0xF0, s[i + 1] - 0x80, s[i + 2] - 0x80, s[i + 3] - 0x80);
      }
    }
  }

  lemma TwoBack(c: nat, d: nat)
    requires 2 <= c < 0x20 && d < 0x40
    ensures Scalar(c * 0x40 + d) && Encode(c * 0x40 + d) == [0xC0 + c, 0x80 + d]
  {
    LastPlace(c, d);
  }

  lemma ThreeBack(b: nat, c: nat, d: nat)
    requires b < 0x10 && c < 0x40 && d < 0x40 && (b == 0 ==> c >= 0x20) && (b == 0xD ==> c < 0x20)
    ensures var v := b * 0x1000 + c * 0x40 + d; Scalar(v) && Encode(v) == [0xE0 + b, 0x80 + c, 0x80 + d]
  {
    PlacesBack(0, b, c, d);
  }

  lemma FourBack(a: nat, b: nat, c: nat, d: nat)
    requires a <= 4 && b < 0x40 && c < 0x40 && d < 0x40 && (a == 0 ==> b >= 0x10) && (a == 4 ==> b < 0x10)
    ensures var v := a * 0x40000 + b * 0x1000 + c * 0x40 + d;
            Scalar(v) && Encode(v) == [0xF0 + a, 0x80 + b, 0x80 + c, 0x80 + d]
  {
    PlacesBack(a, b, c, d);
  }

  lemma LastPlace(q: nat, d: nat)
    requires d < 0x40
    ensures (q * 0x40 + d) / 0x40 == q && (q * 0x40 + d) % 0x40 == d
  {}

  lemma PlacesBack(a: nat, b: nat, c: nat, d: nat)
    requires b < 0x40 && c < 0x40 && d < 0x40
    ensures var v := a * 0x40000 + b * 0x1000 + c * 0x40 + d;
            v % 0x40 == d && v / 0x40 % 0x40 == c && v / 0x1000 % 0x40 == b && v / 0x40000 == a
            && v / 0x40 == (a * 0x40 + b) * 0x40 + c && v / 0x1000 == a * 0x40 + b
  {
    var x := a * 0x40 + b;
    var y := x * 0x40 + c;
    assert a * 0x40000 + b * 0x1000 + c * 0x40 + d == y * 0x40 + d;
    LastPlace(a, b);
    LastPlace(x, c);
    LastPlace(y, d);
    TwoDivisions(y * 0x40 + d);
  }

  // A sequence of bytes is an encoded character exactly if it is the encoding of one.
  lemma EncodedExactly(s: Text, i: nat)
    requires i < |s| && s[i] >= 0x80
    ensures Encoded(s, i) <==> exists v: nat :: 0x80 <= v && Scalar(v) && Encode(v) <= s[i..]
  {
    if Encoded(s, i) {
      EncodesDecoded(s, i);
      var r := Decode(s, i);
      assert s[i..i + r.size] == s[i..][..r.size];
      assert 0x80 <= r.value && Scalar(r.value) && Encode(r.value) <= s[i..];
    }
    if v: nat :| 0x80 <= v && Scalar(v) && Encode(v) <= s[i..] {
      var rest := s[i..][|Encode(v)|..];
      DecodesEncoded(v, rest);
      assert Encode(v) + rest == s[i..];
      IsEncoded(v, rest);
      EncodedBehind(s, i);
    }
  }

  lemma IsEncoded(v: nat, rest: Text)
    requires 0x80 <= v && Scalar(v)
    ensures Encoded(Encode(v) + rest, 0)
  {
    if v < 0x800 {
      TwoPlaces(v);
    } else if v < 0x10000 {
      ThreePlaces(v);
    } else {
      FourPlaces(v);
    }
  }

  lemma EncodedBehind(s: Text, i: nat)
    requires i < |s|
    ensures Encoded(s[i..], 0) <==> Encoded(s, i)
  {}
}
