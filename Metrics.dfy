/** `OllamaMetrics`: memory in use and two rates the server does not report. */
module Metrics {
  import opened Numbers
  import ByteSize
  import Models

  /**
   * The constructor's arguments; `getMemoryUsage`, `getCpuUsage` and
   * `getTokensPerSecond` are the fields (`double` becomes `real`).
   */
  datatype Metrics = Metrics(memoryUsage: Long, cpuUsage: real, tokensPerSecond: real)
  {
    /** `getMemoryUsageFormatted`: the memory with two decimals after scaling. */
    function MemoryUsageFormatted(fmt: ByteSize.NumberFormat): (s: string)
      ensures memoryUsage == 0 ==> s == "0 B"
      ensures memoryUsage != 0 && -1024 < memoryUsage < 1024 ==> s == Digits(ByteSize.AbsInt(memoryUsage)) + " B"
      ensures memoryUsage == LONG_MIN ==> s == "-9223372036854775808 B"
    {
      ByteSize.FormatZero(2, fmt);
      ByteSize.FormatSmall(memoryUsage, 2, fmt);
      ByteSize.FormatMinValue(2, fmt);
      ByteSize.Format(memoryUsage, 2, fmt)
    }
  }

  /** The all-zero metrics reported whenever the server cannot be read. */
  const Zero: Metrics := Metrics(0, 0.0, 0.0)

  /**
   * From 1024 bytes up, the memory text is memory / 1024^z with two decimals
   * and the unit letter of the unique z with 1024^z <= |memory| < 1024^(z+1).
   */
  lemma MemoryUsageFormattedScaled(m: Metrics, fmt: ByteSize.NumberFormat, z: nat)
    requires m.memoryUsage != LONG_MIN && z >= 1
    requires Pow(1024, z) <= ByteSize.AbsInt(m.memoryUsage) < Pow(1024, z + 1)
    ensures z <= 6
    ensures m.MemoryUsageFormatted(fmt)
         == fmt(ByteSize.Scaled(ByteSize.AbsInt(m.memoryUsage), z), 2) + " " + [ByteSize.UNITS[z]] + "B"
  {
    ByteSize.FormatScaled(m.memoryUsage, 2, fmt, z);
  }

  /**
   * The memory text and a model's size text for the same byte count differ
   * only in the printed number: one decimal against two, same unit letter.
   */
  lemma SameUnitAsModelSize(bytes: Long, name: string, fmt: ByteSize.NumberFormat)
    ensures var modelText := Models.Model(name, bytes).SizeFormatted(fmt);
            var memoryText := Metrics(bytes, 0.0, 0.0).MemoryUsageFormatted(fmt);
            (ByteSize.Abs(bytes) < 1024 ==> memoryText == modelText) &&
            (ByteSize.Abs(bytes) >= 1024 ==>
               var z := ByteSize.UnitIndex(ByteSize.Abs(bytes));
               var tail := " " + [ByteSize.UNITS[z]] + "B";
               var q := ByteSize.Scaled(ByteSize.Abs(bytes), z);
               modelText == fmt(q, 1) + tail && memoryText == fmt(q, 2) + tail)
  {
  }
}
