/**
 * The byte-count formatter shared, line for line, by `OllamaModel.getSizeFormatted`
 * (one decimal) and `OllamaMetrics.getMemoryUsageFormatted` (two decimals):
 * zero is "0 B", a count below 1024 is printed whole, and a larger count is
 * divided by the power of 1024 picked from its bit length and given one of
 * the unit letters K, M, G, T, P, E.
 */
module ByteSize {
  import opened Numbers

  /** `" KMGTPE"`: the letter for each power of 1024. */
  const UNITS: string := " KMGTPE"

  /**
   * `String.format("%.Nf", value)` with N decimals. The digits it prints
   * depend on `double` rounding and the locale, so they stay abstract.
   */
  type NumberFormat = (real, nat) -> string

  function AbsInt(x: int): nat {
    if x < 0 then -x else x
  }

  /**
   * `Math.abs(long)`: the negation wraps around, so `Long.MIN_VALUE` has no
   * positive counterpart and comes back unchanged.
   */
  function Abs(x: Long): (r: Long)
    ensures x != LONG_MIN ==> r == AbsInt(x)
    ensures x == LONG_MIN ==> r == LONG_MIN
  {
    if x < 0 then Wrap64(-(x as int)) else x
  }

  /**
   * `(63 - Long.numberOfLeadingZeros(bytes)) / 10`: the exponent z of the
   * largest power of 1024 not above bytes.
   */
  function UnitIndex(bytes: Long): (z: nat)
    requires bytes >= 1024
    ensures 1 <= z <= 6
    ensures Pow(1024, z) <= bytes < Pow(1024, z + 1)
  {
    var e := 63 - NumberOfLeadingZeros(bytes);
    ExponentBracket(bytes, e);
    e / 10
  }

  /** If 2^e brackets a count of at least 1024, so does 1024^(e / 10). */
  lemma ExponentBracket(bytes: nat, e: nat)
    requires bytes >= 1024 && e <= 62
    requires Pow(2, e) <= bytes < Pow(2, e + 1)
    ensures 1 <= e / 10 <= 6
    ensures Pow(1024, e / 10) <= bytes < Pow(1024, e / 10 + 1)
  {
    assert Pow(2, 10) == 1024;
    if e < 10 {
      PowMonotone(2, e + 1, 10);
    }
    var z := e / 10;
    PowMonotone(2, 10 * z, e);
    PowMonotone(2, e + 1, 10 * (z + 1));
    Pow1024(z);
    Pow1024(z + 1);
  }

  /** `(double) bytes / (1L << (z * 10))`, taken over the reals. */
  function Scaled(bytes: int, z: nat): real {
    PowPositive(1024, z);
    bytes as real / Pow(1024, z) as real
  }

  function Format(value: Long, decimals: nat, fmt: NumberFormat): string {
    if value == 0 then "0 B"
    else
      var bytes := Abs(value);
      if bytes < 1024 then Decimal(bytes) + " B"
      else
        var z := UnitIndex(bytes);
        fmt(Scaled(bytes, z), decimals) + " " + [UNITS[z]] + "B"
  }

  /** Only one power of 1024 brackets a positive count. */
  lemma BracketUnique(bytes: nat, y: nat, z: nat)
    requires Pow(1024, y) <= bytes < Pow(1024, y + 1)
    requires Pow(1024, z) <= bytes < Pow(1024, z + 1)
    ensures y == z
  {
    if y < z {
      PowMonotone(1024, y + 1, z);
    } else if z < y {
      PowMonotone(1024, z + 1, y);
    }
  }

  /** A count bracketed by 1024^z and 1024^(z+1) scales into [1, 1024). */
  lemma ScaledRange(bytes: nat, z: nat)
    requires Pow(1024, z) <= bytes < Pow(1024, z + 1)
    ensures 1.0 <= Scaled(bytes, z) < 1024.0
  {
    PowPositive(1024, z);
    var p := Pow(1024, z) as real;
    assert Pow(1024, z + 1) == 1024 * Pow(1024, z);
    assert p <= bytes as real < 1024.0 * p;
    QuotientBounds(bytes as real, p);
  }

  lemma QuotientBounds(b: real, p: real)
    requires 0.0 < p <= b < 1024.0 * p
    ensures 1.0 <= b / p < 1024.0
  {
    var q := b / p;
    assert q * p == b;
    assert (q - 1.0) * p == b - p;
    assert (1024.0 - q) * p == 1024.0 * p - b;
    PositiveFactor(1024.0 - q, p);
  }

  lemma PositiveFactor(x: real, p: real)
    requires p > 0.0 && x * p > 0.0
    ensures x > 0.0
  {
  }

  lemma FormatZero(decimals: nat, fmt: NumberFormat)
    ensures Format(0, decimals, fmt) == "0 B"
  {
  }

  /** Below 1024 in magnitude the count is printed whole, sign dropped. */
  lemma FormatSmall(value: Long, decimals: nat, fmt: NumberFormat)
    ensures value != 0 && -1024 < value < 1024 ==> Format(value, decimals, fmt) == Digits(AbsInt(value)) + " B"
  {
  }

  /**
   * `Math.abs(Long.MIN_VALUE)` is negative, so the "below 1024" test passes
   * and the count is printed with its sign, never reaching `charAt`.
   */
  lemma FormatMinValue(decimals: nat, fmt: NumberFormat)
    ensures Format(LONG_MIN, decimals, fmt) == "-9223372036854775808 B"
  {
    assert Abs(LONG_MIN) == LONG_MIN;
    DecimalOfMinValue();
  }

  /**
   * From 1024 up, the unit is the z with 1024^z <= |value| < 1024^(z+1):
   * z is between 1 and 6, its letter is one of K, M, G, T, P, E, and the
   * number printed is |value| / 1024^z, which lies in [1, 1024).
   */
  lemma FormatScaled(value: Long, decimals: nat, fmt: NumberFormat, z: nat)
    requires value != LONG_MIN
    requires Pow(1024, z) <= AbsInt(value) < Pow(1024, z + 1)
    requires z >= 1
    ensures z <= 6 && UNITS[z] in "KMGTPE"
    ensures 1.0 <= Scaled(AbsInt(value), z) < 1024.0
    ensures Format(value, decimals, fmt)
         == fmt(Scaled(AbsInt(value), z), decimals) + " " + [UNITS[z]] + "B"
  {
    var bytes := Abs(value);
    PowMonotone(1024, 1, z);
    assert Pow(1024, 1) == 1024;
    assert bytes >= 1024;
    BracketUnique(bytes, UnitIndex(bytes), z);
    ScaledRange(bytes, z);
  }
}
