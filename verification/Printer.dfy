/** `render_spotfire` (src/spotfire_expr_normalizer/ast.py). */
module Printer {
  import opened Wrappers
  import opened Text
  import opened Ast

  function EscapeQuotes(s: string): string {
    if s == "" then "" else (if s[0] == '"' then "\"\"" else [s[0]]) + EscapeQuotes(s[1..])
  }

  function ValueText(v: Value, floats: FloatText): string {
    match v
    case NoneV => "None"
    case BoolV(flag) => if flag then "True" else "False"
    case IntV(n) => if n < 0 then "-" + Decimal(-n) else Decimal(n)
    case FloatV(bits) => floats.show(bits)
    case StringV(text) => text
  }

  predicate Truthy(v: Value) {
    match v
    case NoneV => false
    case BoolV(flag) => flag
    case IntV(n) => n != 0
    case FloatV(bits) => bits % 0x8000_0000_0000_0000 != 0
    case StringV(text) => text != ""
  }

  function LiteralText(dtype: string, v: Value, floats: FloatText): string {
    if v.NoneV? then "Null"
    else if dtype == "bool" then (if Truthy(v) then "True" else "False")
    else if dtype == "string" then "\"" + EscapeQuotes(ValueText(v, floats)) + "\""
    else ValueText(v, floats)
  }

  function UnaryText(operator: UnaryOp): string {
    match operator
    case Negate => "-"
    case Positive => "+"
    case Not => "Not "
  }

  function BinaryText(op: string): string {
    if op == "contains" then "~=" else if op == "concat" then "&" else op
  }

  function CastText(target: string): string {
    if target == "bool" then "Boolean"
    else if target == "int32" then "Integer"
    else if target == "int64" then "LongInteger"
    else if target == "float32" then "SingleReal"
    else if target == "float64" then "Real"
    else if target == "string" then "String"
    else "Cast"
  }

  function Render(node: Node, floats: FloatText): string
    decreases node, 0
  {
    match node
    case Column(name) => "[" + name + "]"
    case Literal(dtype, value) => LiteralText(dtype, value, floats)
    case Unary(operator, operand) => UnaryText(operator) + "(" + Render(operand, floats) + ")"
    case Binary(op, left, right) =>
      "(" + Render(left, floats) + " " + BinaryText(op) + " " + Render(right, floats) + ")"
    case Call(name, arguments) => name + "(" + RenderList(arguments, floats) + ")"
    case Case(branches, otherwise) =>
      if |branches| == 1 then
        "If(" + Render(branches[0].condition, floats) + ", " + Render(branches[0].value, floats) + ", "
        + Render(otherwise, floats) + ")"
      else
        "CASE " + RenderBranches(branches, floats) + "ELSE " + Render(otherwise, floats) + " END"
    case Cast(inner, target) => CastText(target) + "(" + Render(inner, floats) + ")"
    case Window(body, partitions, _, _) =>
      Render(body, floats) + " OVER (" + RenderList(partitions, floats) + ")"
    case Alias(_, aliased) => Render(aliased, floats)
  }

  /** `", ".join(...)` over the rendered items. */
  function RenderList(items: seq<Node>, floats: FloatText): string
    decreases items, 1
  {
    if items == [] then ""
    else if |items| == 1 then Render(items[0], floats)
    else Render(items[0], floats) + ", " + RenderList(items[1..], floats)
  }

  /** The WHEN parts, each followed by the joining space. */
  function RenderBranches(branches: seq<Branch>, floats: FloatText): string
    decreases branches, 1
  {
    if branches == [] then ""
    else RenderBranch(branches[0], floats) + RenderBranches(branches[1..], floats)
  }

  function RenderBranch(branch: Branch, floats: FloatText): string
    decreases branch, 1
  {
    "WHEN " + Render(branch.condition, floats) + " THEN " + Render(branch.value, floats) + " "
  }
}
