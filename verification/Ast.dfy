/** The expression tree (src/spotfire_expr_normalizer/ast.py, native/engine/src/expression_ir.rs). */
module Ast {
  import opened Wrappers

  /** A literal's payload. A float64 is named by its bit pattern: the text Python writes for it and
      the float it reads from a text are the two functions of `FloatText`. */
  datatype Value = NoneV | BoolV(flag: bool) | IntV(number: int) | FloatV(bits: int) | StringV(text: string)

  datatype FloatText = FloatText(show: int -> string, read: string -> int)

  datatype UnaryOp = Negate | Positive | Not

  datatype Branch = Branch(condition: Node, value: Node)

  datatype WindowOrder = WindowOrder(expression: Node, direction: string, nulls: string)

  datatype Node =
    | Column(name: string)
    | Literal(dtype: string, value: Value)
    | Unary(operator: UnaryOp, operand: Node)
    | Binary(op: string, left: Node, right: Node)
    | Call(function_: string, arguments: seq<Node>)
    | Case(branches: seq<Branch>, otherwise: Node)
    | Cast(inner: Node, target: string)
    | Window(body: Node, partitions: seq<Node>, orders: seq<WindowOrder>, frame: Option<string>)
    | Alias(alias: string, aliased: Node)
}
