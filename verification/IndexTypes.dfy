// What the key bytes of a column type mean: they hold every value of the type
// (datamigrate/oraclemysql_indexes_plan.go).
module IndexTypes {
  import opened Wrappers
  import opened IndexPrefix

  function Pow(base: nat, n: nat): nat { if n == 0 then 1 else base * Pow(base, n - 1) }

  lemma {:induction false} PowAdd(base: nat, m: nat, n: nat)
    ensures Pow(base, m + n) == Pow(base, m) * Pow(base, n)
  {
    if m > 0 {
      PowAdd(base, m - 1, n);
      assert base * (Pow(base, m - 1) * Pow(base, n)) == (base * Pow(base, m - 1)) * Pow(base, n);
    }
  }

  lemma {:induction false} PowPositive(base: nat, n: nat)
    requires base > 0
    ensures Pow(base, n) >= 1
  {
    if n > 0 {
      PowPositive(base, n - 1);
      ProductMonotone(1, base, Pow(base, n - 1));
    }
  }

  lemma {:induction false} PowMonotone(base: nat, m: nat, n: nat)
    requires base > 0 && m <= n
    ensures Pow(base, m) <= Pow(base, n)
    decreases n - m
  {
    if m < n {
      PowMonotone(base, m, n - 1);
      PowPositive(base, n - 1);
      ProductMonotone(1, base, Pow(base, n - 1));
    }
  }

  // 256 to the k is 2 to the 8k.
  lemma {:induction false} Bytes256(k: nat)
    ensures Pow(256, k) == Pow(2, 8 * k)
  {
    if k > 0 {
      Bytes256(k - 1);
      PowAdd(2, 8, 8 * (k - 1));
      assert Pow(2, 8) == 256 by { PowEight(); }
      assert 8 + 8 * (k - 1) == 8 * k;
    }
  }

  lemma PowEight()
    ensures Pow(2, 8) == 256
  {
    assert Pow(2, 4) == 16;
    PowAdd(2, 4, 4);
  }

  // This many bytes hold the values, and one byte less would not.
  ghost predicate Fewest(values: nat, bytes: int) {
    bytes >= 0 && values <= Pow(256, bytes) && (bytes > 0 ==> Pow(256, bytes - 1) < values)
  }

  // ---- Decimal digits ----

  // Nine digits take four bytes, and the rest a byte for every two begun.
  lemma DigitBytesExactly(digits: nat)
    ensures digits < 9 ==> DigitBytes(digits) == (digits + 1) / 2
    ensures digits >= 9 ==> DigitBytes(digits) == DigitBytes(digits - 9) + 4
  {}

  lemma SmallDigitsFit(digits: nat)
    requires digits < 9
    ensures Pow(10, digits) <= Pow(256, (digits + 1) / 2)
  {
    SmallPowers();
    if digits == 1 || digits == 2 {
    } else if digits == 3 || digits == 4 {
    } else if digits == 5 || digits == 6 {
    }
  }

  lemma SmallPowers()
    ensures Pow(10, 0) == 1 && Pow(10, 1) == 10 && Pow(10, 2) == 100 && Pow(10, 3) == 1000 && Pow(10, 4) == 10000
    ensures Pow(10, 5) == 100000 && Pow(10, 6) == 1000000 && Pow(10, 7) == 10000000 && Pow(10, 8) == 100000000
    ensures Pow(10, 9) == 1000000000
    ensures Pow(256, 0) == 1 && Pow(256, 1) == 256 && Pow(256, 2) == 65536 && Pow(256, 3) == 16777216
    ensures Pow(256, 4) == 4294967296
  {
    assert Pow(10, 3) == 1000 && Pow(256, 2) == 65536;
    PowAdd(10, 3, 3);
    PowAdd(10, 3, 6);
    PowAdd(10, 1, 3);
    PowAdd(10, 2, 3);
    PowAdd(10, 1, 6);
    PowAdd(10, 2, 6);
    PowAdd(256, 1, 2);
    PowAdd(256, 2, 2);
  }

  // The bytes of any number of digits hold them all.
  lemma {:induction false} DigitsFit(digits: nat)
    ensures Pow(10, digits) <= Pow(256, DigitBytes(digits))
  {
    if digits < 9 {
      DigitBytesExactly(digits);
      SmallDigitsFit(digits);
    } else {
      var rest, bytes := digits - 9, DigitBytes(digits - 9);
      DigitsFit(rest);
      DigitBytesExactly(digits);
      SmallPowers();
      PowAdd(10, 9, rest);
      PowAdd(256, 4, bytes);
      ProductMonotone(Pow(10, rest), Pow(256, bytes), Pow(10, 9));
      ProductMonotone(Pow(10, 9), Pow(256, 4), Pow(256, bytes));
    }
  }

  // The declared number of digits, or 10 and none behind the point if the catalog knows of none.
  function Precision(c: Column): int
    requires c.text.TypeText?
  {
    if c.text.first.Some? then c.text.first.value else if c.precision != 0 then c.precision else 10
  }

  function Scale(c: Column): int
    requires c.text.TypeText?
  {
    if c.text.second.Some? && c.text.first.Some? then c.text.second.value
    else if c.text.first.None? && c.precision != 0 then c.scale else 0
  }

  predicate IsDecimal(precision: int, scale: int) { 1 <= precision <= 65 && 0 <= scale <= 30 && scale <= precision }

  lemma DecimalShape(c: Column)
    requires c.text.TypeText?
    ensures DecimalPart(c) == if IsDecimal(Precision(c), Scale(c))
                              then Known(Part(DigitBytes(Precision(c) - Scale(c)) + DigitBytes(Scale(c)), 0, 0, false))
                              else Invalid
  {}

  // A decimal is stored as its digits before and after the point, in bytes that hold them; the column is refused
  // exactly if that is no decimal type.
  lemma DecimalHolds(c: Column)
    requires c.text.TypeText? && c.text.word.Decimal? && Readable(c)
    ensures if IsDecimal(Precision(c), Scale(c)) then
              var before, after := DigitBytes(Precision(c) - Scale(c)), DigitBytes(Scale(c));
              && ColumnPart(c) == Known(Part(before + after, 0, 0, false))
              && Pow(10, Precision(c) - Scale(c)) <= Pow(256, before) && Pow(10, Scale(c)) <= Pow(256, after)
            else ColumnPart(c).Invalid?
  {
    DecimalShape(c);
    if IsDecimal(Precision(c), Scale(c)) {
      DigitsFit(Precision(c) - Scale(c));
      DigitsFit(Scale(c));
    }
  }

  // ---- Numbers, bits and times ----

  // How many different values a type has, apart from fractions of a second: the ranges that MySQL documents.
  function Values(c: Column): nat
    requires c.text.TypeText?
  {
    match c.text.word
    case TinyInt | Bool => Pow(2, 8)
    case SmallInt => Pow(2, 16)
    case MediumInt => Pow(2, 24)
    case Int => Pow(2, 32)
    case BigInt => Pow(2, 64)
    case Float =>
      if c.text.first.Some? && c.text.first.value > 24 && c.text.second.None? then Pow(2, 64) else Pow(2, 32)
    case Double => Pow(2, 64)
    case Bit => Pow(2, if c.text.first.Some? then c.text.first.value else 1)
    case Year => 256                                // 0 and 1901 to 2155
    case Date => 10000 * 16 * 32
    case Time => 2 * 3020399 + 1                    // 838:59:59 either way
    case DateTime => 10000 * 13 * 32 * 86400
    case Timestamp => Pow(2, 31)                    // seconds until 2038
    case _ => 0
  }

  // Decimal digits of a fraction of a second.
  function Fraction(c: Column): int
    requires c.text.TypeText?
  {
    if !(c.text.word.Time? || c.text.word.DateTime? || c.text.word.Timestamp?) then 0
    else if c.text.first.Some? then c.text.first.value else c.timePrecision
  }

  predicate Fixed(word: Word) {
    word in {TinyInt, Bool, SmallInt, MediumInt, Int, BigInt, Float, Double, Bit, Year, Date, Time, DateTime, Timestamp}
  }

  lemma BinaryPowers()
    ensures Pow(2, 8) == Pow(256, 1) && Pow(2, 16) == Pow(256, 2) && Pow(2, 24) == Pow(256, 3)
    ensures Pow(2, 32) == Pow(256, 4) && Pow(2, 64) == Pow(256, 8) && Pow(256, 7) < Pow(256, 8)
    ensures Pow(2, 31) == 2147483648 && Pow(256, 5) == 1099511627776
  {
    Bytes256(1);
    Bytes256(2);
    Bytes256(3);
    Bytes256(4);
    Bytes256(8);
    SmallPowers();
    PowAdd(256, 1, 4);
    PowAdd(256, 1, 7);
    PowPositive(256, 7);
    PowAdd(2, 1, 31);
  }

  lemma BitsFit(bits: nat)
    requires bits >= 1
    ensures Fewest(Pow(2, bits), (bits + 7) / 8)
  {
    var bytes := (bits + 7) / 8;
    Bytes256(bytes);
    Bytes256(bytes - 1);
    PowMonotone(2, bits, 8 * bytes);
    PowMonotone(2, 8 * (bytes - 1) + 1, bits);
    PowPositive(2, 8 * (bytes - 1));
    PowAdd(2, 1, 8 * (bytes - 1));
  }

  lemma FractionFits(digits: nat)
    requires digits <= 6
    ensures Fewest(Pow(10, digits), (digits + 1) / 2)
  {
    SmallPowers();
  }

  // A column of fixed size takes the fewest bytes that hold its values, and the fewest that hold a fraction of a
  // second.
  lemma FixedHolds(c: Column)
    requires ColumnPart(c).Known? && Fixed(c.text.word)
    ensures exists whole: int, rest: int ::
              && ColumnPart(c).part == Part(whole + rest, 0, 0, false)
              && Fewest(Values(c), whole) && Fraction(c) >= 0 && Fewest(Pow(10, Fraction(c)), rest)
  {
    SmallPowers();
    BinaryPowers();
    var digits := Fraction(c);
    FractionFits(digits);
    var rest := (digits + 1) / 2;
    var whole := ColumnPart(c).part.fixedBytes - rest;
    if c.text.word.Bit? { BitsFit(if c.text.first.Some? then c.text.first.value else 1); }
    assert Fewest(Values(c), whole);
  }

  // ---- Which types are known ----

  // A column is refused exactly if one of its numbers is out of range; nothing is known of a type the planner
  // does not list.
  lemma KnownExactly(c: Column)
    ensures ColumnPart(c).UnknownType? <==> c.text.Unparsed? || (c.text.word.Other? && Readable(c))
    ensures c.text.TypeText? && Fixed(c.text.word) ==>
              (ColumnPart(c).Known? <==> && Readable(c)
                                         && (c.text.word.Bit? ==> c.text.first.None? || 1 <= c.text.first.value <= 64)
                                         && 0 <= Fraction(c) <= 6)
    ensures c.text.TypeText? && !Fixed(c.text.word) && !c.text.word.Other? && !c.text.word.Decimal? ==>
              (ColumnPart(c).Known? <==> Readable(c) && TextPart(c).Known?)
  {}

  // Its arguments are numbers of 64 bits.
  predicate Readable(c: Column) {
    && c.text.TypeText?
    && (c.text.first.Some? ==> c.text.first.value < 0x8000_0000_0000_0000)
    && (c.text.second.Some? ==> c.text.second.value < 0x8000_0000_0000_0000)
  }

  // ---- Text ----

  // How many bytes the length field of a text or blob type has.
  function LengthBytes(word: Word): nat {
    match word
    case TinyText | TinyBlob => 1
    case Text | Blob => 2
    case MediumText | MediumBlob => 3
    case LongText | LongBlob => 4
    case _ => 0
  }

  // A character takes as many bytes as its character set may need, a binary unit one. A text or blob column has
  // as many units as its length field can count the bytes of, or fewer if its length is known, and needs a
  // prefix; any other has its declared length.
  lemma TextUnits(c: Column)
    requires ColumnPart(c).Known? && ColumnPart(c).part.units > 0
    ensures var p, w := ColumnPart(c).part, c.text.word;
            var binary := w in {Binary, VarBinary, TinyBlob, Blob, MediumBlob, LongBlob};
            var length := if c.text.first.Some? then c.text.first.value else c.length;
            && p.unitBytes == (if binary then 1 else c.maxBytes) && p.unitBytes >= 1
            && (p.mandatory <==> LengthBytes(w) > 0)
            && (p.mandatory ==> p.units * p.unitBytes < Pow(256, LengthBytes(w)))
            && (p.mandatory && c.length > 0 ==> p.units <= c.length)
            && (p.mandatory && (c.length <= 0 || p.units < c.length) ==>
                  (p.units + 1) * p.unitBytes >= Pow(256, LengthBytes(w)))
            && (!p.mandatory ==> w in {Char, VarChar, Binary, VarBinary} && p.units == length)
  {
    var p, w := ColumnPart(c).part, c.text.word;
    TextShape(c);
    TextBytesCounted(w);
    if p.mandatory { WholeUnits(p.units, p.unitBytes, TextBytes(w), c.length); }
  }

  lemma TextBytesCounted(w: Word)
    ensures TextBytes(w) == if LengthBytes(w) == 0 then 0 else Pow(256, LengthBytes(w)) - 1
  {
    SmallPowers();
  }

  lemma TextShape(c: Column)
    requires ColumnPart(c).Known? && ColumnPart(c).part.units > 0
    ensures var p, w := ColumnPart(c).part, c.text.word;
            && p.unitBytes == (if w in {Binary, VarBinary, TinyBlob, Blob, MediumBlob, LongBlob} then 1 else c.maxBytes)
            && p.unitBytes >= 1 && (p.mandatory <==> LengthBytes(w) > 0)
            && if p.mandatory then
                 var whole := TextBytes(w) / p.unitBytes;
                 p.units == if c.length > 0 then Min(whole, c.length) else whole
               else
                 w in {Char, VarChar, Binary, VarBinary}
                 && p.units == if c.text.first.Some? then c.text.first.value else c.length
  {}

  lemma WholeUnits(units: int, width: int, bytes: int, length: int)
    requires width >= 1 && units == if length > 0 then Min(bytes / width, length) else bytes / width
    ensures units * width <= bytes && (length > 0 ==> units <= length)
    ensures length <= 0 || units < length ==> (units + 1) * width > bytes
  {
    var whole := bytes / width;
    ProductMonotone(units, whole, width);
    assert whole * width <= bytes < (whole + 1) * width;
  }
}
