/**
 * The intended value renderer. `extractValueFromNode` passes the operands of unary and
 * binary operations, and a non-identifier callee, to `extractValue` and formats the results
 * with `%s%s` and `(%s %s %s)` (parser/parser.go:402-407, 574), so it evidently means to
 * render them; here they are rendered recursively. The source's renderer agrees with this
 * one on plain trees (no operations, only identifier callees) and differs on `1 + 2` and `-x`.
 */
module ValueDesign {
  import opened Wrappers
  import opened Text
  import opened Ast
  import opened Values

  function DesignValue(v: JValue): string
    decreases v, 1
  {
    match v
    case JObj(node) => DesignNode(node)
    case JNodePtr(ptr) => DesignOperand(ptr)
    case JNull => ""
    case JArr(_) => ""
    case _ => FormatScalar(v)
  }

  function DesignOperand(e: Option<AstNode>): string
    decreases e, 1
  {
    match e
    case None => ""
    case Some(node) => DesignNode(node)
  }

  function DesignNode(node: AstNode): string
    decreases node, 1
  {
    if node.nodeType == "Literal" then
      if !node.value.JNull? then FormatScalar(node.value)
      else if node.hexValue != "" then node.hexValue
      else ""
    else if node.nodeType == "FunctionCall" then DesignCall(node)
    else if node.nodeType == "Identifier" then node.name
    else if node.nodeType == "UnaryOperation" then node.operator + DesignOperand(node.subExpression)
    else if node.nodeType == "BinaryOperation" then
      "(" + DesignOperand(node.leftExpression) + " " + node.operator + " " + DesignOperand(node.rightExpression) + ")"
    else ""
  }

  function DesignCall(node: AstNode): string
    decreases node, 0
  {
    match node.expression
    case None => ""
    case Some(callee) =>
      var functionName := if callee.nodeType == "Identifier" then callee.name else DesignNode(callee);
      functionName + "(" + Join(DesignArguments(node.arguments), ", ") + ")"
  }

  function DesignArguments(args: seq<JValue>): seq<string>
    decreases args, 1
  {
    if args == [] then [] else [DesignValue(args[0])] + DesignArguments(args[1..])
  }

  /** A value made only of scalars, literals, identifiers and calls of identifiers. */
  predicate PlainValue(v: JValue)
    decreases v, 1
  {
    match v
    case JObj(node) => PlainNode(node)
    case JNodePtr(_) => false
    case _ => true
  }

  predicate PlainNode(node: AstNode)
    decreases node, 0
  {
    && node.nodeType != "UnaryOperation"
    && node.nodeType != "BinaryOperation"
    && (node.nodeType == "FunctionCall" ==>
          (node.expression.Some? ==> node.expression.value.nodeType == "Identifier") &&
          forall i :: 0 <= i < |node.arguments| ==> PlainValue(node.arguments[i]))
  }

  /** On plain trees, at any depth of nested calls, the source renders what the intended renderer does. */
  lemma {:induction false} PlainValuesAgree(v: JValue)
    requires PlainValue(v)
    ensures ExtractValue(v) == DesignValue(v)
    decreases v, 1
  {
    match v
    case JObj(node) => PlainNodesAgree(node);
    case _ =>
  }

  lemma {:induction false} PlainNodesAgree(node: AstNode)
    requires PlainNode(node)
    ensures ExtractValueFromNode(node) == DesignNode(node)
    decreases node, 0
  {
    if node.nodeType == "FunctionCall" && node.expression.Some? {
      PlainArgumentsAgree(node.arguments);
    }
  }

  lemma {:induction false} PlainArgumentsAgree(args: seq<JValue>)
    requires forall i :: 0 <= i < |args| ==> PlainValue(args[i])
    ensures ExtractArguments(args) == DesignArguments(args)
    decreases args, 0
  {
    if args != [] {
      PlainValuesAgree(args[0]);
      PlainArgumentsAgree(args[1..]);
    }
  }

  function LiteralNode(text: string): AstNode
  {
    NodeOfKind("Literal").(value := JStr(text))
  }

  /** `1 + 2` as an initializer: the intended renderer gives "(1 + 2)", the source "( + )". */
  lemma BinaryOperationDiffers(sum: AstNode)
    requires sum.nodeType == "BinaryOperation" && sum.operator == "+"
    requires sum.leftExpression == Some(LiteralNode("1")) && sum.rightExpression == Some(LiteralNode("2"))
    ensures DesignValue(JObj(sum)) == "(1 + 2)"
    ensures ExtractValue(JObj(sum)) == "( + )"
  {
    OperationsDegrade(sum);
    assert DesignOperand(sum.leftExpression) == "1";
    assert DesignOperand(sum.rightExpression) == "2";
    assert DesignNode(sum) == "(" + "1" + " " + "+" + " " + "2" + ")";
  }

  /** `-x`: the intended renderer gives "-x", the source "-". */
  lemma UnaryOperationDiffers(neg: AstNode)
    requires neg.nodeType == "UnaryOperation" && neg.operator == "-"
    requires neg.subExpression == Some(NodeOfKind("Identifier").(name := "x"))
    ensures DesignValue(JObj(neg)) == "-x"
    ensures ExtractValue(JObj(neg)) == "-"
  {
    OperationsDegrade(neg);
    assert DesignOperand(neg.subExpression) == "x";
  }
}
