/**
 * Java's fixed-width integers and the conversions between them and decimal
 * text: `long` and `int` ranges, the narrowing that `BigDecimal.longValue`
 * performs, `Long.toString` / `Integer.toString`, `Long.parseLong`, and the
 * bit length behind `Long.numberOfLeadingZeros`.
 */
module Numbers {
  import opened Options

  const LONG_MIN: int := -0x8000_0000_0000_0000
  const LONG_MAX: int := 0x7FFF_FFFF_FFFF_FFFF
  const TWO_64: int := 0x1_0000_0000_0000_0000

  /** A Java `long`. */
  type Long = n: int | -0x8000_0000_0000_0000 <= n <= 0x7FFF_FFFF_FFFF_FFFF

  /** A Java `int`. */
  type Int32 = n: int | -0x8000_0000 <= n <= 0x7FFF_FFFF

  function Pow(b: nat, e: nat): nat
    decreases e
  {
    if e == 0 then 1 else b * Pow(b, e - 1)
  }

  lemma {:induction false} PowPositive(b: nat, e: nat)
    requires b > 0
    ensures Pow(b, e) > 0
    decreases e
  {
    if e > 0 {
      PowPositive(b, e - 1);
    }
  }

  lemma {:induction false} PowAdd(b: nat, x: nat, y: nat)
    ensures Pow(b, x + y) == Pow(b, x) * Pow(b, y)
    decreases y
  {
    if y > 0 {
      PowAdd(b, x, y - 1);
      assert Pow(b, x + y) == b * Pow(b, x + y - 1);
    }
  }

  lemma {:induction false} PowMonotone(b: nat, x: nat, y: nat)
    requires b > 0 && x <= y
    ensures Pow(b, x) <= Pow(b, y)
  {
    PowAdd(b, x, y - x);
    PowPositive(b, y - x);
    PowPositive(b, x);
  }

  /** 1024 to the z is 2 to the 10z: Java's `1L << (z * 10)`. */
  lemma {:induction false} Pow1024(z: nat)
    ensures Pow(1024, z) == Pow(2, 10 * z)
    decreases z
  {
    if z > 0 {
      Pow1024(z - 1);
      PowAdd(2, 10 * (z - 1), 10);
      assert Pow(2, 10) == 1024;
    }
  }

  /**
   * The narrowing of an arbitrary integer to a `long` that keeps its low
   * 64 bits, as `BigDecimal.longValue` does for an integral value.
   */
  function Wrap64(n: int): (r: Long)
    ensures (n - r) % TWO_64 == 0
    ensures LONG_MIN <= n <= LONG_MAX ==> r == n
  {
    var m := n % TWO_64;
    if m <= LONG_MAX then m else m - TWO_64
  }

  // ---------------------------------------------------------------------
  // Decimal text
  // ---------------------------------------------------------------------

  predicate IsDigit(c: char) {
    '0' <= c <= '9'
  }

  predicate AllDigits(s: string) {
    forall i :: 0 <= i < |s| ==> IsDigit(s[i])
  }

  function DigitChar(d: nat): (c: char)
    requires d < 10
    ensures IsDigit(c)
  {
    ('0' as int + d) as char
  }

  /** The value of a string of decimal digits, most significant first. */
  function DigitsValue(s: string): nat
    requires AllDigits(s)
    decreases |s|
  {
    if s == [] then 0
    else DigitsValue(s[..|s| - 1]) * 10 + (s[|s| - 1] as int - '0' as int)
  }

  /** The decimal digits of a natural number, most significant first. */
  function Digits(n: nat): (s: string)
    ensures |s| > 0
    decreases n
  {
    if n < 10 then [DigitChar(n)] else Digits(n / 10) + [DigitChar(n % 10)]
  }

  /** The digits are digits, they read back as n, and only 0 starts with '0'. */
  lemma {:induction false} DigitsCorrect(n: nat)
    ensures AllDigits(Digits(n)) && DigitsValue(Digits(n)) == n
    ensures Digits(n)[0] == '0' ==> n == 0
    decreases n
  {
    if n >= 10 {
      DigitsCorrect(n / 10);
      var s := Digits(n);
      assert s[..|s| - 1] == Digits(n / 10);
    }
  }

  /** `Long.toString` / `Integer.toString`: a minus sign for negatives. */
  function Decimal(n: int): (s: string)
    ensures |s| > 0
    ensures forall i :: 0 <= i < |s| ==> s[i] == '-' || IsDigit(s[i])
  {
    if n < 0 then DigitsCorrect(-n); "-" + Digits(-n) else DigitsCorrect(n); Digits(n)
  }

  /**
   * `Long.parseLong` on ASCII text: an optional sign, then at least one
   * digit, and a value inside the `long` range; anything else fails.
   */
  function ParseLong(s: string): (r: Option<Long>)
    ensures r.Some? ==> |s| > 0
  {
    if |s| == 0 then None
    else
      var signed := s[0] == '-' || s[0] == '+';
      var body := if signed then s[1..] else s;
      if |body| == 0 || !AllDigits(body) then None
      else
        var v := if s[0] == '-' then -(DigitsValue(body) as int) else DigitsValue(body) as int;
        if LONG_MIN <= v <= LONG_MAX then Some(v) else None
  }

  /** Printing a `long` and parsing the text back gives the same `long`. */
  lemma ParseDecimal(n: Long)
    ensures ParseLong(Decimal(n)) == Some(n)
  {
    var s := Decimal(n);
    if n < 0 {
      DigitsCorrect(-(n as int));
      assert s[1..] == Digits(-(n as int));
    } else {
      DigitsCorrect(n);
      assert IsDigit(s[0]);
    }
  }

  /** Decimal text never contains a colon (used to split "host:port"). */
  lemma DecimalHasNoColon(n: int)
    ensures ':' !in Decimal(n)
  {
    var s := Decimal(n);
    assert forall i :: 0 <= i < |s| ==> s[i] != ':';
  }

  // ---------------------------------------------------------------------
  // Bit length
  // ---------------------------------------------------------------------

  /** The number of binary digits of n (0 for 0). */
  function BitLength(n: nat): nat
    decreases n
  {
    if n == 0 then 0 else 1 + BitLength(n / 2)
  }

  lemma {:induction false} BitLengthBounds(n: nat)
    requires n > 0
    ensures BitLength(n) >= 1
    ensures Pow(2, BitLength(n) - 1) <= n < Pow(2, BitLength(n))
    decreases n
  {
    if n > 1 {
      BitLengthBounds(n / 2);
      var k := BitLength(n / 2);
      assert BitLength(n) == k + 1;
      assert Pow(2, k) == 2 * Pow(2, k - 1);
      assert Pow(2, k + 1) == 2 * Pow(2, k);
    }
  }

  lemma {:induction false} BitLengthAtMost(n: nat, k: nat)
    requires n < Pow(2, k)
    ensures BitLength(n) <= k
    decreases k
  {
    if n > 0 {
      assert k > 0;
      assert n / 2 < Pow(2, k - 1);
      BitLengthAtMost(n / 2, k - 1);
    }
  }

  lemma {:induction false} Pow2At63()
    ensures Pow(2, 63) == LONG_MAX + 1
  {
    PowAdd(2, 60, 3);
    Pow1024(6);
    assert Pow(1024, 6) == 0x1000_0000_0000_0000 by {
      assert Pow(1024, 3) == 0x4000_0000 by {
        assert Pow(1024, 2) == 1024 * 1024 by {
          assert Pow(1024, 1) == 1024;
        }
      }
      PowAdd(1024, 3, 3);
    }
  }

  /**
   * `Long.numberOfLeadingZeros`: for a positive x, the count r of zero bits
   * above its highest one bit in a 64-bit word, so that x lies in
   * [2^(63 - r), 2^(64 - r)).
   */
  function NumberOfLeadingZeros(x: Long): (r: nat)
    ensures x < 0 ==> r == 0
    ensures x == 0 ==> r == 64
    ensures x > 0 ==> 1 <= r <= 63 && Pow(2, 63 - r) <= x < Pow(2, 64 - r)
  {
    if x < 0 then 0
    else
      Pow2At63();
      BitLengthAtMost(x, 63);
      if x > 0 then BitLengthBounds(x); 64 - BitLength(x) else 64
  }

  lemma DigitsStep(n: nat, prefix: string)
    requires n >= 10 && Digits(n / 10) == prefix
    ensures Digits(n) == prefix + [DigitChar(n % 10)]
  {
  }

  /** The leading nine digits of 2^63. */
  lemma DigitsOfLeadingHalf()
    ensures Digits(922337203) == "922337203"
  {
    assert Digits(9) == "9";
    DigitsStep(92, "9");
    DigitsStep(922, "92");
    DigitsStep(9223, "922");
    DigitsStep(92233, "9223");
    DigitsStep(922337, "92233");
    DigitsStep(9223372, "922337");
    DigitsStep(92233720, "9223372");
    DigitsStep(922337203, "92233720");
  }

  /** The digits of 2^63, the magnitude of `Long.MIN_VALUE`. */
  lemma DigitsOfTwoTo63()
    ensures Digits(9223372036854775808) == "9223372036854775808"
  {
    DigitsOfLeadingHalf();
    DigitsStep(9223372036, "922337203");
    DigitsStep(92233720368, "9223372036");
    DigitsStep(922337203685, "92233720368");
    DigitsStep(9223372036854, "922337203685");
    DigitsStep(92233720368547, "9223372036854");
    DigitsStep(922337203685477, "92233720368547");
    DigitsStep(9223372036854775, "922337203685477");
    DigitsStep(92233720368547758, "9223372036854775");
    DigitsStep(922337203685477580, "92233720368547758");
    DigitsStep(9223372036854775808, "922337203685477580");
  }

  lemma NegativeDecimal(n: int, magnitude: string)
    requires n < 0 && Digits(-n) == magnitude
    ensures Decimal(n) == "-" + magnitude
  {
  }

  /** `Long.toString(Long.MIN_VALUE)`. */
  lemma DecimalOfMinValue()
    ensures Decimal(LONG_MIN) == "-9223372036854775808"
  {
    DigitsOfTwoTo63();
    NegativeDecimal(LONG_MIN, "9223372036854775808");
  }
}
