/**
 * The value reconstructor: extractValue, extractValueFromNode and extractFunctionCall.
 *
 * In the source, the operands of unary and binary operations and a callee that is not an
 * identifier are `*ASTNode` fields handed straight to extractValue, whose type switch has
 * no case for that type; they therefore render as "" (the `JNodePtr` case below). Only call
 * arguments, which decode to JSON objects, are rendered recursively.
 */
module Values {
  import opened Wrappers
  import opened Text
  import opened Ast

  /** `%v` of the scalars JSON decodes to; the model gives "" for anything else. */
  function FormatScalar(v: JValue): string
  {
    match v
    case JStr(s) => s
    case JBool(b) => if b then "true" else "false"
    case JNum(text) => text
    case _ => ""
  }

  /** extractValue: a type switch on the dynamic type of `v`. */
  function ExtractValue(v: JValue): string
    decreases if v.JNodePtr? then 0 else 1, v, 0
  {
    match v
    case JNull => ""
    case JStr(_) => FormatScalar(v)
    case JBool(_) => FormatScalar(v)
    case JNum(_) => FormatScalar(v)
    case JObj(node) => ExtractValueFromNode(node)
    case JArr(_) => ""
    case JNodePtr(_) => ""
  }

  /** extractValueFromNode: a switch on the node kind. */
  function ExtractValueFromNode(node: AstNode): string
    decreases 1, node, 2
  {
    if node.nodeType == "Literal" then
      if !node.value.JNull? then FormatScalar(node.value)
      else if node.hexValue != "" then node.hexValue
      else ""
    else if node.nodeType == "FunctionCall" then ExtractFunctionCall(node)
    else if node.nodeType == "Identifier" then node.name
    else if node.nodeType == "UnaryOperation" then
      node.operator + ExtractValue(JNodePtr(node.subExpression))
    else if node.nodeType == "BinaryOperation" then
      "(" + ExtractValue(JNodePtr(node.leftExpression)) + " " + node.operator + " " +
        ExtractValue(JNodePtr(node.rightExpression)) + ")"
    else ""
  }

  /** extractFunctionCall: callee name, then the rendered arguments joined by ", ". */
  function ExtractFunctionCall(node: AstNode): string
    decreases 1, node, 1
  {
    match node.expression
    case None => ""
    case Some(callee) =>
      var functionName :=
        if callee.nodeType == "Identifier" then callee.name else ExtractValue(JNodePtr(node.expression));
      functionName + "(" + Join(ExtractArguments(node.arguments), ", ") + ")"
  }

  /** The argument loop of extractFunctionCall: every argument rendered, in order. */
  function ExtractArguments(args: seq<JValue>): (r: seq<string>)
    ensures |r| == |args|
    ensures forall i :: 0 <= i < |args| ==> r[i] == ExtractValue(args[i])
    decreases 1, args, 3
  {
    if args == [] then [] else [ExtractValue(args[0])] + ExtractArguments(args[1..])
  }

  /** Raw scalars: a string unchanged, a boolean as true/false, a number as printed; null as "". */
  lemma ScalarRendering(v: JValue)
    ensures v.JStr? ==> ExtractValue(v) == v.s
    ensures v.JBool? ==> ExtractValue(v) == if v.b then "true" else "false"
    ensures v.JNum? ==> ExtractValue(v) == v.text
    ensures v.JNull? || v.JArr? || v.JNodePtr? ==> ExtractValue(v) == ""
  {
  }

  /**
   * Leaf nodes: a literal gives its value when present, else its non-empty hex value,
   * else ""; an identifier gives its name; an unrecognised kind gives "".
   */
  lemma LeafRendering(node: AstNode)
    ensures node.nodeType == "Literal" && !node.value.JNull? ==>
      ExtractValue(JObj(node)) == FormatScalar(node.value)
    ensures node.nodeType == "Literal" && node.value.JNull? ==> ExtractValue(JObj(node)) == node.hexValue
    ensures node.nodeType == "Identifier" ==> ExtractValue(JObj(node)) == node.name
    ensures !(node.nodeType in ["Literal", "FunctionCall", "Identifier", "UnaryOperation", "BinaryOperation"]) ==>
      ExtractValue(JObj(node)) == ""
  {
  }

  /**
   * Operations degrade: an operand is a node pointer, so a unary operation renders as its
   * operator alone and a binary one as "( op )", whatever the operands are.
   */
  lemma OperationsDegrade(node: AstNode)
    ensures node.nodeType == "UnaryOperation" ==> ExtractValue(JObj(node)) == node.operator
    ensures node.nodeType == "BinaryOperation" ==> ExtractValue(JObj(node)) == "( " + node.operator + " )"
  {
    assert ExtractValue(JObj(node)) == ExtractValueFromNode(node);
    assert ExtractValue(JNodePtr(node.subExpression)) == "";
    assert ExtractValue(JNodePtr(node.leftExpression)) == "" && ExtractValue(JNodePtr(node.rightExpression)) == "";
  }

  /**
   * Calls: no callee gives ""; otherwise the callee is the identifier's name, or "" for any
   * other callee, followed by the arguments in order, joined by ", ", in parentheses.
   */
  lemma CallRendering(node: AstNode)
    requires node.nodeType == "FunctionCall"
    ensures node.expression.None? ==> ExtractValue(JObj(node)) == ""
    ensures node.expression.Some? ==>
      var callee := if node.expression.value.nodeType == "Identifier" then node.expression.value.name else "";
      ExtractValue(JObj(node)) ==
        callee + "(" + Join(seq(|node.arguments|, i requires 0 <= i < |node.arguments| => ExtractValue(node.arguments[i])), ", ") + ")"
  {
    assert ExtractValue(JObj(node)) == ExtractFunctionCall(node);
    if node.expression.Some? {
      assert ExtractValue(JNodePtr(node.expression)) == "";
      var rendered := ExtractArguments(node.arguments);
      assert rendered == seq(|node.arguments|, i requires 0 <= i < |node.arguments| => ExtractValue(node.arguments[i]));
    }
  }
}
