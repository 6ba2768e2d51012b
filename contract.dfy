/**
 * The Contract the extractor fills in place: ExtractContractInfoFromAST and
 * ExtractContractDefinition as methods that append to its fields.
 */
module Contracts {
  import opened Wrappers
  import opened Ast
  import opened Domain
  import opened Extract
  import opened Engine

  class Contract {
    var name: string
    var pragma: string
    var imports: seq<Import>
    var inherits: seq<string>
    var constructorDef: Option<Function>
    var variables: seq<Variable>
    var functions: seq<Function>
    var events: seq<Event>
    var modifiers: seq<Modifier>
    var structs: seq<Struct>
    var enums: seq<Enum>
    var mappings: seq<Variable>

    /** The current value of every field. */
    function Info(): ContractInfo
      reads this
    {
      ContractInfo(name, pragma, imports, inherits, constructorDef, variables, functions, events,
                   modifiers, structs, enums, mappings)
    }

    /** A contract with only its name set. */
    constructor (name: string)
      ensures Info() == EmptyContract(name)
    {
      this.name := name;
      pragma := "";
      imports, inherits, constructorDef := [], [], None;
      variables, functions, events, modifiers, structs, enums, mappings := [], [], [], [], [], [], [];
    }

    /** Dispatches the members of one contract definition, after appending its base names. */
    method ExtractContractDefinition(node: AstNode)
      modifies this
      ensures Info() == ApplyDefinition(old(Info()), node)
    {
      for i := 0 to |node.baseContracts|
        invariant Info() == old(Info()).(inherits := old(inherits) + BaseNamesOf(node)[..i])
      {
        assert BaseNamesOf(node)[..i + 1] == BaseNamesOf(node)[..i] + [node.baseContracts[i].baseName];
        inherits := inherits + [node.baseContracts[i].baseName];
      }
      assert BaseNamesOf(node)[..|node.baseContracts|] == BaseNamesOf(node);
      ghost var start := Info();
      var members := node.nodes;
      for i := 0 to |members|
        invariant Info() == ApplyMembers(start, members[..i])
      {
        assert members[..i + 1][..i] == members[..i];
        DispatchMember(members[i]);
      }
      assert members[..|members|] == members;
    }

    /** The body of the member switch: one member, dispatched on its kind. */
    method DispatchMember(member: AstNode)
      modifies this
      ensures Info() == ApplyMember(old(Info()), member)
    {
      if member.nodeType == "VariableDeclaration" {
        var v := ExtractVariable(member);
        if member.typeName.Some? && member.typeName.value.nodeType == "Mapping" {
          mappings := mappings + [v];
        } else {
          variables := variables + [v];
        }
      } else if member.nodeType == "FunctionDefinition" {
        var f := ExtractFunction(member);
        if f.kind == "constructor" {
          constructorDef := Some(f);
        } else {
          functions := functions + [f];
        }
      } else if member.nodeType == "EventDefinition" {
        var e := ExtractEvent(member);
        events := events + [e];
      } else if member.nodeType == "ModifierDefinition" {
        var m := ExtractModifier(member);
        modifiers := modifiers + [m];
      } else if member.nodeType == "StructDefinition" {
        var s := ExtractStruct(member);
        structs := structs + [s];
      } else if member.nodeType == "EnumDefinition" {
        var e := ExtractEnum(member);
        enums := enums + [e];
      }
    }

    /** One pass over the top-level nodes, in order. */
    method ExtractContractInfoFromAST(nodes: seq<AstNode>)
      modifies this
      ensures Info() == ApplyNodes(old(Info()), nodes)
    {
      for i := 0 to |nodes|
        invariant Info() == ApplyNodes(old(Info()), nodes[..i])
      {
        var node := nodes[i];
        assert nodes[..i + 1][..i] == nodes[..i];
        if node.nodeType == "PragmaDirective" {
          pragma := ExtractPragmaDirective(node);
        } else if node.nodeType == "ImportDirective" {
          imports := imports + [ExtractImportDirective(node)];
        } else if node.nodeType == "ContractDefinition" {
          if name == "" {
            name := node.name;
          }
          ExtractContractDefinition(node);
        }
      }
      assert nodes[..|nodes|] == nodes;
    }
  }
}
