/** The per-rule trace records of a run. */
module Explanations {
  import opened Node

  /**
   * The explanation of one condition. The source stores the condition's
   * text; the model stores the condition itself.
   */
  datatype ConditionExplanation = ConditionExplanation(expression: Expr, result: bool, details: string)

  datatype RuleExplanation = RuleExplanation(
    ruleName: string,
    matched: bool,
    conditions: seq<ConditionExplanation>,
    mutations: seq<string>)
}
