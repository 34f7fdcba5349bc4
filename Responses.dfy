/** `OllamaResponse`: the text of one generation and its counters. */
module Responses {
  import opened Numbers

  /**
   * The constructor's four arguments; the getters `getResponse`,
   * `getTokenCount`, `getEvalDuration` and `getTotalDuration` are the fields.
   */
  datatype Response = Response(text: string, tokenCount: Long, evalDuration: Long, totalDuration: Long)
  {
    /**
     * Tokens per second, from a duration in nanoseconds, over the reals
     * (the source computes it in `double`); zero when nothing was timed.
     */
    function TokensPerSecond(): (r: real)
      ensures evalDuration == 0 ==> r == 0.0
      ensures evalDuration != 0 ==> r * evalDuration as real == tokenCount as real * 1_000_000_000.0
      ensures tokenCount >= 0 && evalDuration > 0 ==> r >= 0.0
    {
      if evalDuration == 0 then 0.0
      else (tokenCount as real * 1_000_000_000.0) / evalDuration as real
    }
  }

  /** A failed generation: the given text and every counter zero. */
  function ErrorResponse(text: string): (r: Response)
    ensures r.text == text
    ensures r.tokenCount == 0 && r.evalDuration == 0 && r.totalDuration == 0
    ensures r.TokensPerSecond() == 0.0
  {
    Response(text, 0, 0, 0)
  }

  /** 100 tokens over 2 * 10^9 ns is 50 tokens per second. */
  lemma FiftyTokensPerSecond()
    ensures Response("", 100, 2_000_000_000, 0).TokensPerSecond() == 50.0
  {
  }
}
