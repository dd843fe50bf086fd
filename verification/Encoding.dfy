// Numerals and separated fields, shared by the two encodings below.
module Encoding {
  type Byte = b: int | 0 <= b < 256

  function Numeral(n: nat, base: nat): (s: seq<Byte>)
    requires 2 <= base <= 10
    ensures forall i :: 0 <= i < |s| ==> 48 <= s[i] < 58
  {
    if n < base then [48 + n] else Numeral(n / base, base) + [48 + n % base]
  }

  function Value(s: seq<Byte>, base: nat): int {
    if s == [] then 0 else Value(s[..|s| - 1], base) * base + s[|s| - 1] - 48
  }

  lemma ValueSnoc(s: seq<Byte>, d: Byte, base: nat)
    ensures Value(s + [d], base) == Value(s, base) * base + d - 48
  {
    assert (s + [d])[..|s|] == s;
  }

  lemma DivMod(n: nat, base: nat)
    requires base > 0
    ensures n / base * base + n % base == n
  {}

  lemma {:induction false} NumeralValue(n: nat, base: nat)
    requires 2 <= base <= 10
    ensures Value(Numeral(n, base), base) == n
  {
    if n < base {
      ValueSnoc([], 48 + n, base);
      assert [] + [48 + n as Byte] == [48 + n];
    } else {
      NumeralValue(n / base, base);
      ValueSnoc(Numeral(n / base, base), 48 + n % base, base);
      DivMod(n, base);
    }
  }

  lemma NumeralInjective(a: nat, b: nat, base: nat)
    requires 2 <= base <= 10 && Numeral(a, base) == Numeral(b, base)
    ensures a == b
  {
    NumeralValue(a, base);
    NumeralValue(b, base);
  }

  predicate Without(s: seq<Byte>, sep: Byte) { forall i :: 0 <= i < |s| ==> s[i] != sep }

  function Field(s: seq<Byte>, sep: Byte, rest: seq<Byte>): seq<Byte> { s + [sep] + rest }

  // A field that does not contain its separator ends at the first one.
  lemma FieldEnds(a: seq<Byte>, x: seq<Byte>, b: seq<Byte>, y: seq<Byte>, sep: Byte)
    requires Without(a, sep) && Without(b, sep) && Field(a, sep, x) == Field(b, sep, y)
    ensures a == b && x == y
  {
    var s, t := Field(a, sep, x), Field(b, sep, y);
    assert s[|a|] == sep && t[|b|] == sep;
    assert forall i :: 0 <= i < |a| ==> s[i] == a[i];
    assert forall i :: 0 <= i < |b| ==> t[i] == b[i];
    assert |a| == |b|;
    assert a == s[..|a|] && b == t[..|b|];
    assert x == s[|a| + 1..] && y == t[|b| + 1..];
  }
}
