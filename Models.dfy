/** `OllamaModel`: one model the server lists, with its size in bytes. */
module Models {
  import opened Numbers
  import ByteSize

  /** The constructor's arguments; `getName` and `getSize` are the fields. */
  datatype Model = Model(name: string, size: Long)
  {
    /** `getSizeFormatted`: the size with one decimal after scaling. */
    function SizeFormatted(fmt: ByteSize.NumberFormat): (s: string)
      ensures size == 0 ==> s == "0 B"
      ensures size != 0 && -1024 < size < 1024 ==> s == Digits(ByteSize.AbsInt(size)) + " B"
      ensures size == LONG_MIN ==> s == "-9223372036854775808 B"
    {
      ByteSize.FormatZero(1, fmt);
      ByteSize.FormatSmall(size, 1, fmt);
      ByteSize.FormatMinValue(1, fmt);
      ByteSize.Format(size, 1, fmt)
    }

    /** `toString`: the name, then the formatted size in parentheses. */
    function ToText(fmt: ByteSize.NumberFormat): (s: string)
      ensures |s| == |name| + |SizeFormatted(fmt)| + 3
      ensures s[..|name|] == name && s[|name|..|name| + 2] == " ("
      ensures s[|name| + 2..|s| - 1] == SizeFormatted(fmt) && s[|s| - 1] == ')'
    {
      name + " (" + SizeFormatted(fmt) + ")"
    }
  }

  /**
   * For a size of 1024 bytes or more in magnitude, the one-decimal text is
   * size / 1024^z followed by the unit letter, where z is the unique
   * exponent with 1024^z <= |size| < 1024^(z+1); z is 1 to 6.
   */
  lemma SizeFormattedScaled(m: Model, fmt: ByteSize.NumberFormat, z: nat)
    requires m.size != LONG_MIN && z >= 1
    requires Pow(1024, z) <= ByteSize.AbsInt(m.size) < Pow(1024, z + 1)
    ensures z <= 6
    ensures m.SizeFormatted(fmt)
         == fmt(ByteSize.Scaled(ByteSize.AbsInt(m.size), z), 1) + " " + [ByteSize.UNITS[z]] + "B"
  {
    ByteSize.FormatScaled(m.size, 1, fmt, z);
  }
}
