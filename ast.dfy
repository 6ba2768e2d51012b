/**
 * The decoded JSON tree the extractor walks. As in the source, every node kind shares one
 * flat record (`AstNode`) whose `nodeType` says which optional fields mean something; a
 * JSON value whose Go type is `interface{}` is a `JValue`.
 */
module Ast {
  import opened Wrappers
  import opened TypeNames

  /**
   * What a Go `interface{}` field holds. JSON decoding produces the first six kinds
   * (a number is kept as the text `%v` prints for it; an object is the node it decodes to).
   * `JNodePtr` is a `*ASTNode` handed to the value renderer by the renderer itself.
   */
  datatype JValue =
    | JNull
    | JStr(s: string)
    | JBool(b: bool)
    | JNum(text: string)
    | JArr(items: seq<JValue>)
    | JObj(node: AstNode)
    | JNodePtr(ptr: Option<AstNode>)

  /** A base-contract entry: the name of its base-name node. */
  datatype BaseContract = BaseContract(baseName: string)

  datatype ModifierInvocation = ModifierInvocation(modifierName: AstNode)

  datatype OverrideSpecifier = OverrideSpecifier(overrides: seq<AstNode>)

  datatype ParameterList = ParameterList(parameters: seq<AstNode>)

  datatype AstNode = AstNode(
    nodeType: string,
    name: string,
    absolutePath: string,
    file: string,
    baseContracts: seq<BaseContract>,
    members: seq<AstNode>,
    modifiers: seq<ModifierInvocation>,
    parameters: Option<ParameterList>,
    returnParameters: Option<ParameterList>,
    visibility: string,
    stateMutability: string,
    kind: string,
    baseFunctions: seq<int>,
    overrides: Option<OverrideSpecifier>,
    functionSelector: string,
    storageLocation: string,
    constant: bool,
    mutability: string,
    stateVariable: bool,
    value: JValue,
    typeName: Option<TypeName>,
    literals: seq<string>,
    nodes: seq<AstNode>,
    operator: string,
    subExpression: Option<AstNode>,
    expression: Option<AstNode>,
    arguments: seq<JValue>,
    hexValue: string,
    leftExpression: Option<AstNode>,
    rightExpression: Option<AstNode>,
    indexed: Option<bool>)

  /** A node of the given kind with every other field absent from the JSON. */
  function NodeOfKind(nodeType: string): AstNode
  {
    AstNode(nodeType, "", "", "", [], [], [], None, None, "", "", "", [], None, "", "", false, "", false,
            JNull, None, [], [], "", None, None, [], "", None, None, None)
  }
}
