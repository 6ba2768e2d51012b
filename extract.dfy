/**
 * The per-node builders of the extractor: ExtractParameter, ExtractVariable, the pragma and
 * import builders, and the append loops of ExtractFunction, ExtractEvent, ExtractModifier,
 * ExtractStruct, ExtractEnum and ExtractModifiers. Each loop is a method proved equal to a
 * declarative definition (`...Of`) that the extraction pass is specified with.
 */
module Extract {
  import opened Wrappers
  import opened Text
  import opened Collections
  import opened TypeNames
  import opened Ast
  import opened Values
  import opened Domain

  /** ExtractParameter: `indexed` is the source flag when present and false when absent. */
  function ExtractParameter(node: AstNode): (p: Parameter)
    ensures p.name == node.name && p.typeString == ExtractTypeName(node.typeName)
    ensures p.indexed <==> node.indexed == Some(true)
  {
    Parameter(node.name, ExtractTypeName(node.typeName), if node.indexed.Some? then node.indexed.value else false)
  }

  /** ExtractVariable: the declaration's fields, the rendered type and the rendered initial value. */
  function ExtractVariable(node: AstNode): (v: Variable)
    ensures v.name == node.name && v.typeString == ExtractTypeName(node.typeName)
    ensures v.visibility == node.visibility && v.stateVariable == node.stateVariable
    ensures v.storageLocation == node.storageLocation && v.constant == node.constant
    ensures v.mutability == node.mutability && v.functionSelector == node.functionSelector
    ensures v.value == if node.value.JNull? then "" else ExtractValue(node.value)
  {
    Variable(
      node.name, ExtractTypeName(node.typeName), node.visibility, node.stateVariable, node.storageLocation,
      node.constant, node.mutability, node.functionSelector,
      if !node.value.JNull? then ExtractValue(node.value) else "")
  }

  /** ExtractPragmaDirective: "pragma " followed by every literal token and ";". */
  function ExtractPragmaDirective(node: AstNode): (s: string)
    ensures s == "pragma " + Concat(node.literals) + ";"
  {
    JoinWithoutSeparator(node.literals);
    "pragma " + Join(node.literals, "") + ";"
  }

  /** ExtractImportDirective: the alias is the node's name. */
  function ExtractImportDirective(node: AstNode): (i: Import)
    ensures i.absolutePath == node.absolutePath && i.file == node.file
    ensures i.alias == node.name
  {
    Import(node.absolutePath, node.file, node.name)
  }

  /** Every node of a parameter list, in order; a missing list gives no parameters. */
  function ParametersOf(list: Option<ParameterList>): seq<Parameter>
  {
    match list
    case None => []
    case Some(pl) => seq(|pl.parameters|, i requires 0 <= i < |pl.parameters| => ExtractParameter(pl.parameters[i]))
  }

  function ModifierNamesOf(node: AstNode): seq<string>
  {
    seq(|node.modifiers|, i requires 0 <= i < |node.modifiers| => node.modifiers[i].modifierName.name)
  }

  function OverrideNamesOf(node: AstNode): seq<string>
  {
    match node.overrides
    case None => []
    case Some(spec) => seq(|spec.overrides|, i requires 0 <= i < |spec.overrides| => spec.overrides[i].name)
  }

  function FunctionOf(node: AstNode): Function
  {
    Function(node.name, node.visibility, node.kind, node.stateMutability,
             ParametersOf(node.parameters), ParametersOf(node.returnParameters),
             ModifierNamesOf(node), node.baseFunctions, OverrideNamesOf(node))
  }

  function EventOf(node: AstNode): Event
  {
    Event(node.name, ParametersOf(node.parameters))
  }

  function ModifierOf(node: AstNode): Modifier
  {
    Modifier(node.name, ParametersOf(node.parameters))
  }

  function StructOf(node: AstNode): Struct
  {
    Struct(node.name, seq(|node.members|, i requires 0 <= i < |node.members| => ExtractVariable(node.members[i])))
  }

  /** The name of an enum member, when it is an EnumValue node. */
  function EnumValueName(member: AstNode): seq<string>
  {
    if member.nodeType == "EnumValue" then [member.name] else []
  }

  function EnumOf(node: AstNode): Enum
  {
    Enum(node.name, Collect(node.members, EnumValueName))
  }

  /** The parameter loop shared by ExtractFunction, ExtractEvent and ExtractModifier. */
  method ExtractParameterList(list: Option<ParameterList>) returns (params: seq<Parameter>)
    ensures params == ParametersOf(list)
  {
    params := [];
    if list.Some? {
      var nodes := list.value.parameters;
      for i := 0 to |nodes|
        invariant |params| == i
        invariant forall k :: 0 <= k < i ==> params[k] == ExtractParameter(nodes[k])
      {
        params := params + [ExtractParameter(nodes[i])];
      }
    }
  }

  /** ExtractModifiers: the names of the applied modifiers, in application order. */
  method ExtractModifiers(node: AstNode) returns (names: seq<string>)
    ensures names == ModifierNamesOf(node)
  {
    names := [];
    for i := 0 to |node.modifiers|
      invariant |names| == i
      invariant forall k :: 0 <= k < i ==> names[k] == node.modifiers[k].modifierName.name
    {
      names := names + [node.modifiers[i].modifierName.name];
    }
  }

  method ExtractFunction(node: AstNode) returns (f: Function)
    ensures f == FunctionOf(node)
  {
    var modifiers := ExtractModifiers(node);
    var overrides := [];
    if node.overrides.Some? {
      var targets := node.overrides.value.overrides;
      for i := 0 to |targets|
        invariant |overrides| == i
        invariant forall k :: 0 <= k < i ==> overrides[k] == targets[k].name
      {
        overrides := overrides + [targets[i].name];
      }
    }
    var parameters := ExtractParameterList(node.parameters);
    var returnParameters := ExtractParameterList(node.returnParameters);
    f := Function(node.name, node.visibility, node.kind, node.stateMutability,
                  parameters, returnParameters, modifiers, node.baseFunctions, overrides);
  }

  method ExtractEvent(node: AstNode) returns (e: Event)
    ensures e == EventOf(node)
  {
    var parameters := ExtractParameterList(node.parameters);
    e := Event(node.name, parameters);
  }

  method ExtractModifier(node: AstNode) returns (m: Modifier)
    ensures m == ModifierOf(node)
  {
    var parameters := ExtractParameterList(node.parameters);
    m := Modifier(node.name, parameters);
  }

  /** ExtractStruct: every member becomes a Variable, with no mapping/variable split. */
  method ExtractStruct(node: AstNode) returns (s: Struct)
    ensures s == StructOf(node)
  {
    var members := [];
    for i := 0 to |node.members|
      invariant |members| == i
      invariant forall k :: 0 <= k < i ==> members[k] == ExtractVariable(node.members[k])
    {
      members := members + [ExtractVariable(node.members[i])];
    }
    s := Struct(node.name, members);
  }

  /** ExtractEnum: the names of the EnumValue members, in order; other members are skipped. */
  method ExtractEnum(node: AstNode) returns (e: Enum)
    ensures e == EnumOf(node)
  {
    var values := [];
    for i := 0 to |node.members|
      invariant values == Collect(node.members[..i], EnumValueName)
    {
      CollectSnoc(node.members[..i], node.members[i], EnumValueName);
      assert node.members[..i + 1] == node.members[..i] + [node.members[i]];
      if node.members[i].nodeType == "EnumValue" {
        values := values + [node.members[i].name];
      }
    }
    assert node.members[..|node.members|] == node.members;
    e := Enum(node.name, values);
  }

  /** Parameters keep their declaration order and their own indexed flags. */
  lemma ParametersKeepOrder(list: ParameterList)
    ensures |ParametersOf(Some(list))| == |list.parameters|
    ensures forall i :: 0 <= i < |list.parameters| ==>
      ParametersOf(Some(list))[i].name == list.parameters[i].name &&
      ParametersOf(Some(list))[i].indexed == (list.parameters[i].indexed == Some(true))
  {
  }

  /** An enum keeps exactly the names of its EnumValue members (ExtractEnum states their order). */
  lemma {:induction false} EnumValuesKept(members: seq<AstNode>)
    ensures |Collect(members, EnumValueName)| <= |members|
    ensures forall v :: v in Collect(members, EnumValueName) <==>
      exists i :: 0 <= i < |members| && members[i].nodeType == "EnumValue" && members[i].name == v
  {
    if members != [] {
      EnumValuesKept(members[1..]);
      forall v ensures v in Collect(members, EnumValueName) <==>
        exists i :: 0 <= i < |members| && members[i].nodeType == "EnumValue" && members[i].name == v
      {
        if exists i :: 0 <= i < |members[1..]| && members[1..][i].nodeType == "EnumValue" && members[1..][i].name == v {
          var i :| 0 <= i < |members[1..]| && members[1..][i].nodeType == "EnumValue" && members[1..][i].name == v;
          assert members[i + 1] == members[1..][i];
        }
        if exists i :: 0 <= i < |members| && members[i].nodeType == "EnumValue" && members[i].name == v {
          var i :| 0 <= i < |members| && members[i].nodeType == "EnumValue" && members[i].name == v;
          if i > 0 { assert members[1..][i - 1] == members[i]; }
        }
      }
    }
  }

  /** A Transfer event with an indexed sender and a plain amount keeps both flags and both types. */
  lemma TransferEvent(from: AstNode, value: AstNode, event: AstNode)
    requires from.name == "from" && from.typeName == Some(Elementary("address")) && from.indexed == Some(true)
    requires value.name == "value" && value.typeName == Some(Elementary("uint256")) && value.indexed == Some(false)
    requires event.name == "Transfer" && event.parameters == Some(ParameterList([from, value]))
    ensures EventOf(event) ==
      Event("Transfer", [Parameter("from", "address", true), Parameter("value", "uint256", false)])
  {
  }
}
