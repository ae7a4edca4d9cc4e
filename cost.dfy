/** `calculate_usage_cost` of v1/app_v1.py: the price of one translation call,
    from the token counts the remote service reports, with the fallback to
    zero when the reply carries no usage. Prices are exact reals here; the
    source computes them in binary floating point. */
module CostEstimator {
  import opened Options

  /** Dollars per 1000 prompt tokens and per 1000 completion tokens. */
  const InputCostPer1k: real := 0.00015
  const OutputCostPer1k: real := 0.0006

  /** The usage report of a reply: `usage.prompt_tokens`, `usage.completion_tokens`. */
  datatype Usage = Usage(promptTokens: nat, completionTokens: nat)

  /** The triple `(cost, input_tokens, output_tokens)` the source returns. */
  datatype UsageCost = UsageCost(cost: real, inputTokens: nat, outputTokens: nat)

  /** The rate formula of v1/app_v1.py:80. */
  function TokenCost(inputTokens: nat, outputTokens: nat): real {
    (inputTokens as real) / 1000.0 * InputCostPer1k + (outputTokens as real) / 1000.0 * OutputCostPer1k
  }

  /** A reply without a usage report (any exception while reading it) costs
      nothing and counts no tokens; otherwise the token counts are passed
      through unchanged and priced by the rate formula. */
  function CalculateUsageCost(usage: Option<Usage>): (c: UsageCost)
    ensures usage.None? ==> c == UsageCost(0.0, 0, 0)
    ensures usage.Some? ==> c.inputTokens == usage.value.promptTokens
    ensures usage.Some? ==> c.outputTokens == usage.value.completionTokens
    ensures c.cost == TokenCost(c.inputTokens, c.outputTokens)
    ensures c.cost >= 0.0
  {
    match usage
    case None => UsageCost(0.0, 0, 0)
    case Some(u) =>
      UsageCost(TokenCost(u.promptTokens, u.completionTokens), u.promptTokens, u.completionTokens)
  }

  /** More tokens never cost less. */
  lemma TokenCostMonotone(i1: nat, o1: nat, i2: nat, o2: nat)
    requires i1 <= i2 && o1 <= o2
    ensures TokenCost(i1, o1) <= TokenCost(i2, o2)
  {
  }
}
