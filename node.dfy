/** The rule tree that the parser front end hands to the runtime. */
module Node {
  import opened Values

  /**
   * A condition. A comparison reads the value at a dotted path and compares
   * it with a literal; `Other` stands for any node the evaluator does not
   * handle (such as a parse-tree node left untransformed).
   */
  datatype Expr =
    | Comparison(path: string, operator: string, value: Value)
    | And(left: Expr, right: Expr)
    | Or(left: Expr, right: Expr)
    | Other(kind: string)

  /** A declared change `path operator value`, the operator as written. */
  datatype Mutation = Mutation(path: string, operator: string, value: Value)

  datatype Rule = Rule(name: string, condition: Expr, mutations: seq<Mutation>)
}
