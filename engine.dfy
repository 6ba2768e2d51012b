/**
 * The extraction pass as functions on ContractInfo values: what ExtractContractInfoFromAST
 * and ExtractContractDefinition do to a contract, node by node (`Apply...`, folds from the
 * left), and closed forms that say what the whole pass produces (`...In` picks, collected
 * head first).
 */
module Engine {
  import opened Wrappers
  import opened Collections
  import opened TypeNames
  import opened Ast
  import opened Domain
  import opened Extract

  /** The test that sends a declaration to Mappings: a type node of kind "Mapping". */
  predicate IsMappingType(t: Option<TypeName>)
  {
    t.Some? && t.value.nodeType == "Mapping"
  }

  function BaseNamesOf(node: AstNode): seq<string>
  {
    seq(|node.baseContracts|, i requires 0 <= i < |node.baseContracts| => node.baseContracts[i].baseName)
  }

  /** One member of a contract definition, dispatched on its kind. */
  function ApplyMember(c: ContractInfo, m: AstNode): ContractInfo
  {
    if m.nodeType == "VariableDeclaration" then
      var v := ExtractVariable(m);
      if IsMappingType(m.typeName) then c.(mappings := c.mappings + [v]) else c.(variables := c.variables + [v])
    else if m.nodeType == "FunctionDefinition" then
      var f := FunctionOf(m);
      if f.kind == "constructor" then c.(constructorDef := Some(f)) else c.(functions := c.functions + [f])
    else if m.nodeType == "EventDefinition" then c.(events := c.events + [EventOf(m)])
    else if m.nodeType == "ModifierDefinition" then c.(modifiers := c.modifiers + [ModifierOf(m)])
    else if m.nodeType == "StructDefinition" then c.(structs := c.structs + [StructOf(m)])
    else if m.nodeType == "EnumDefinition" then c.(enums := c.enums + [EnumOf(m)])
    else c
  }

  function ApplyMembers(c: ContractInfo, ms: seq<AstNode>): ContractInfo
  {
    if ms == [] then c else ApplyMember(ApplyMembers(c, ms[..|ms| - 1]), ms[|ms| - 1])
  }

  /** ExtractContractDefinition: the base names, then the members. */
  function ApplyDefinition(c: ContractInfo, node: AstNode): ContractInfo
  {
    ApplyMembers(c.(inherits := c.inherits + BaseNamesOf(node)), node.nodes)
  }

  /** One top-level node, dispatched on its kind. */
  function ApplyNode(c: ContractInfo, n: AstNode): ContractInfo
  {
    if n.nodeType == "PragmaDirective" then c.(pragma := ExtractPragmaDirective(n))
    else if n.nodeType == "ImportDirective" then c.(imports := c.imports + [ExtractImportDirective(n)])
    else if n.nodeType == "ContractDefinition" then
      ApplyDefinition(if c.name == "" then c.(name := n.name) else c, n)
    else c
  }

  function ApplyNodes(c: ContractInfo, ns: seq<AstNode>): ContractInfo
  {
    if ns == [] then c else ApplyNode(ApplyNodes(c, ns[..|ns| - 1]), ns[|ns| - 1])
  }

  // What each member contributes to each collection.

  function VariableIn(m: AstNode): seq<Variable>
  {
    if m.nodeType == "VariableDeclaration" && !IsMappingType(m.typeName) then [ExtractVariable(m)] else []
  }

  function MappingIn(m: AstNode): seq<Variable>
  {
    if m.nodeType == "VariableDeclaration" && IsMappingType(m.typeName) then [ExtractVariable(m)] else []
  }

  function DeclarationIn(m: AstNode): seq<Variable>
  {
    if m.nodeType == "VariableDeclaration" then [ExtractVariable(m)] else []
  }

  function FunctionIn(m: AstNode): seq<Function>
  {
    if m.nodeType == "FunctionDefinition" && m.kind != "constructor" then [FunctionOf(m)] else []
  }

  function ConstructorIn(m: AstNode): seq<Option<Function>>
  {
    if m.nodeType == "FunctionDefinition" && m.kind == "constructor" then [Some(FunctionOf(m))] else []
  }

  function EventIn(m: AstNode): seq<Event>
  {
    if m.nodeType == "EventDefinition" then [EventOf(m)] else []
  }

  function ModifierIn(m: AstNode): seq<Modifier>
  {
    if m.nodeType == "ModifierDefinition" then [ModifierOf(m)] else []
  }

  function StructIn(m: AstNode): seq<Struct>
  {
    if m.nodeType == "StructDefinition" then [StructOf(m)] else []
  }

  function EnumIn(m: AstNode): seq<Enum>
  {
    if m.nodeType == "EnumDefinition" then [EnumOf(m)] else []
  }

  /** `c` with the member collections of `ms` appended and its last constructor, if any, in the slot. */
  function WithMembers(c: ContractInfo, ms: seq<AstNode>): ContractInfo
  {
    c.(variables := c.variables + Collect(ms, VariableIn),
       mappings := c.mappings + Collect(ms, MappingIn),
       functions := c.functions + Collect(ms, FunctionIn),
       constructorDef := Latest(Collect(ms, ConstructorIn), c.constructorDef),
       events := c.events + Collect(ms, EventIn),
       modifiers := c.modifiers + Collect(ms, ModifierIn),
       structs := c.structs + Collect(ms, StructIn),
       enums := c.enums + Collect(ms, EnumIn))
  }

  /** A single member changes the contract as WithMembers says. */
  lemma MemberStep(c: ContractInfo, m: AstNode)
    ensures ApplyMember(c, m) == WithMembers(c, [m])
  {
    CollectOne(m, VariableIn);
    CollectOne(m, MappingIn);
    CollectOne(m, FunctionIn);
    CollectOne(m, ConstructorIn);
    CollectOne(m, EventIn);
    CollectOne(m, ModifierIn);
    CollectOne(m, StructIn);
    CollectOne(m, EnumIn);
  }

  lemma {:induction false} WithMembersAppend(c: ContractInfo, a: seq<AstNode>, b: seq<AstNode>)
    ensures WithMembers(WithMembers(c, a), b) == WithMembers(c, a + b)
  {
    var x, y := WithMembers(WithMembers(c, a), b), WithMembers(c, a + b);
    CollectAppend(a, b, VariableIn);
    AppendAssociative(c.variables, Collect(a, VariableIn), Collect(b, VariableIn));
    CollectAppend(a, b, MappingIn);
    AppendAssociative(c.mappings, Collect(a, MappingIn), Collect(b, MappingIn));
    CollectAppend(a, b, FunctionIn);
    AppendAssociative(c.functions, Collect(a, FunctionIn), Collect(b, FunctionIn));
    CollectAppend(a, b, ConstructorIn);
    LatestAppend(Collect(a, ConstructorIn), Collect(b, ConstructorIn), c.constructorDef);
    CollectAppend(a, b, EventIn);
    AppendAssociative(c.events, Collect(a, EventIn), Collect(b, EventIn));
    CollectAppend(a, b, ModifierIn);
    AppendAssociative(c.modifiers, Collect(a, ModifierIn), Collect(b, ModifierIn));
    CollectAppend(a, b, StructIn);
    AppendAssociative(c.structs, Collect(a, StructIn), Collect(b, StructIn));
    CollectAppend(a, b, EnumIn);
    AppendAssociative(c.enums, Collect(a, EnumIn), Collect(b, EnumIn));
  }

  lemma WithMembersEmpty(c: ContractInfo)
    ensures WithMembers(c, []) == c
  {
    assert Collect([], VariableIn) == [] && Collect([], MappingIn) == [] && Collect([], FunctionIn) == [];
    assert Collect([], EventIn) == [] && Collect([], ModifierIn) == [] && Collect([], StructIn) == [];
    assert Collect([], EnumIn) == [] && Collect([], ConstructorIn) == [];
  }

  /**
   * Closed form of the member loop: every collection grows by exactly the members of its
   * kind, in source order, and the constructor slot holds the last constructor seen.
   * Name, pragma, imports and inherits do not change.
   */
  lemma {:induction false} MembersCollect(c: ContractInfo, ms: seq<AstNode>)
    ensures ApplyMembers(c, ms) == WithMembers(c, ms)
  {
    if ms == [] {
      WithMembersEmpty(c);
    } else {
      var init, last := ms[..|ms| - 1], ms[|ms| - 1];
      assert init + [last] == ms;
      assert ApplyMembers(c, ms) == ApplyMember(ApplyMembers(c, init), last);
      MembersCollect(c, init);
      MemberStep(WithMembers(c, init), last);
      WithMembersAppend(c, init, [last]);
    }
  }

  // What each top-level node contributes.

  function PragmaIn(n: AstNode): seq<string>
  {
    if n.nodeType == "PragmaDirective" then [ExtractPragmaDirective(n)] else []
  }

  function ImportIn(n: AstNode): seq<Import>
  {
    if n.nodeType == "ImportDirective" then [ExtractImportDirective(n)] else []
  }

  function BaseNamesIn(n: AstNode): seq<string>
  {
    if n.nodeType == "ContractDefinition" then BaseNamesOf(n) else []
  }

  function MembersIn(n: AstNode): seq<AstNode>
  {
    if n.nodeType == "ContractDefinition" then n.nodes else []
  }

  function DefinitionNameIn(n: AstNode): seq<string>
  {
    if n.nodeType == "ContractDefinition" && n.name != "" then [n.name] else []
  }

  /** The name, pragma, imports and inherits the pass gives, before the members. */
  function WithHeader(c: ContractInfo, ns: seq<AstNode>): ContractInfo
  {
    c.(name := if c.name != "" then c.name else Earliest(Collect(ns, DefinitionNameIn), ""),
       pragma := Latest(Collect(ns, PragmaIn), c.pragma),
       imports := c.imports + Collect(ns, ImportIn),
       inherits := c.inherits + Collect(ns, BaseNamesIn))
  }

  /** What the whole pass over `ns` produces from `c`. */
  function PassResult(c: ContractInfo, ns: seq<AstNode>): ContractInfo
  {
    WithMembers(WithHeader(c, ns), Collect(ns, MembersIn))
  }

  lemma {:induction false} DefinitionNamesNonEmpty(ns: seq<AstNode>)
    ensures forall x :: x in Collect(ns, DefinitionNameIn) ==> x != ""
  {
    if ns != [] {
      DefinitionNamesNonEmpty(ns[1..]);
    }
  }

  /** What one top-level node does to the header fields. */
  function HeaderAfter(h: ContractInfo, n: AstNode): ContractInfo
  {
    if n.nodeType == "PragmaDirective" then h.(pragma := ExtractPragmaDirective(n))
    else if n.nodeType == "ImportDirective" then h.(imports := h.imports + [ExtractImportDirective(n)])
    else if n.nodeType == "ContractDefinition" then
      h.(name := if h.name == "" then n.name else h.name, inherits := h.inherits + BaseNamesOf(n))
    else h
  }

  lemma HeaderStep(c: ContractInfo, ns: seq<AstNode>, n: AstNode)
    ensures WithHeader(c, ns + [n]) == HeaderAfter(WithHeader(c, ns), n)
  {
    var h, h' := WithHeader(c, ns), WithHeader(c, ns + [n]);
    HeaderNameStep(c, ns, n);
    CollectSnoc(ns, n, PragmaIn);
    LatestAppend(Collect(ns, PragmaIn), PragmaIn(n), c.pragma);
    CollectSnoc(ns, n, ImportIn);
    AppendAssociative(c.imports, Collect(ns, ImportIn), ImportIn(n));
    CollectSnoc(ns, n, BaseNamesIn);
    AppendAssociative(c.inherits, Collect(ns, BaseNamesIn), BaseNamesIn(n));
    var after := HeaderAfter(h, n);
    assert h'.pragma == after.pragma && h'.imports == after.imports && h'.inherits == after.inherits;
  }

  /** The name is kept once set, and otherwise taken from the first named contract definition. */
  lemma HeaderNameStep(c: ContractInfo, ns: seq<AstNode>, n: AstNode)
    ensures WithHeader(c, ns + [n]).name == HeaderAfter(WithHeader(c, ns), n).name
  {
    CollectSnoc(ns, n, DefinitionNameIn);
    EarliestAppend(Collect(ns, DefinitionNameIn), DefinitionNameIn(n), "");
    if n.nodeType == "ContractDefinition" {
      DefinitionNamesNonEmpty(ns);
      if c.name == "" && Collect(ns, DefinitionNameIn) != [] {
        assert Collect(ns, DefinitionNameIn)[0] in Collect(ns, DefinitionNameIn);
      }
    }
  }

  /** A contract definition acts on the header and then appends its members to the others. */
  lemma DefinitionOnMembers(h: ContractInfo, ms: seq<AstNode>, n: AstNode)
    requires n.nodeType == "ContractDefinition"
    ensures ApplyNode(WithMembers(h, ms), n) == WithMembers(HeaderAfter(h, n), ms + n.nodes)
  {
    var p := WithMembers(h, ms);
    var named := if p.name == "" then p.(name := n.name) else p;
    var based := named.(inherits := named.inherits + BaseNamesOf(n));
    assert based == WithMembers(HeaderAfter(h, n), ms);
    MembersCollect(based, n.nodes);
    WithMembersAppend(HeaderAfter(h, n), ms, n.nodes);
  }

  /** Any other node acts on the header only. */
  lemma DirectiveOnMembers(h: ContractInfo, ms: seq<AstNode>, n: AstNode)
    requires n.nodeType != "ContractDefinition"
    ensures ApplyNode(WithMembers(h, ms), n) == WithMembers(HeaderAfter(h, n), ms)
  {
  }

  lemma NodeStep(c: ContractInfo, ns: seq<AstNode>, n: AstNode)
    ensures ApplyNode(PassResult(c, ns), n) == PassResult(c, ns + [n])
  {
    var members := Collect(ns, MembersIn);
    HeaderStep(c, ns, n);
    CollectSnoc(ns, n, MembersIn);
    if n.nodeType == "ContractDefinition" {
      DefinitionOnMembers(WithHeader(c, ns), members, n);
    } else {
      DirectiveOnMembers(WithHeader(c, ns), members, n);
      assert members + MembersIn(n) == members;
    }
  }

  lemma PassEmpty(c: ContractInfo)
    ensures PassResult(c, []) == c
  {
    assert Collect([], DefinitionNameIn) == [] && Collect([], PragmaIn) == [];
    assert Collect([], ImportIn) == [] && Collect([], BaseNamesIn) == [] && Collect([], MembersIn) == [];
    assert WithHeader(c, []) == c;
    WithMembersEmpty(c);
  }

  /**
   * Closed form of the whole pass: the name stays if set, else it is the first non-empty
   * contract-definition name; the last pragma wins; imports and base names accumulate in
   * order; and the members of EVERY contract definition are dispatched as one list.
   */
  lemma {:induction false} PassCollect(c: ContractInfo, ns: seq<AstNode>)
    ensures ApplyNodes(c, ns) == PassResult(c, ns)
  {
    if ns == [] {
      PassEmpty(c);
    } else {
      var init, last := ns[..|ns| - 1], ns[|ns| - 1];
      assert init + [last] == ns;
      assert ApplyNodes(c, ns) == ApplyNode(ApplyNodes(c, init), last);
      PassCollect(c, init);
      NodeStep(c, init, last);
    }
  }

  /**
   * A variable declaration grows exactly one of Mappings or Variables, by one element at
   * the end: Mappings when its type node is a mapping. Nothing else changes.
   */
  lemma VariablePlacement(c: ContractInfo, m: AstNode)
    requires m.nodeType == "VariableDeclaration"
    ensures IsMappingType(m.typeName) ==> ApplyMember(c, m) == c.(mappings := c.mappings + [ExtractVariable(m)])
    ensures !IsMappingType(m.typeName) ==> ApplyMember(c, m) == c.(variables := c.variables + [ExtractVariable(m)])
  {
  }

  /** A constructor fills the slot (replacing any earlier one); any other function is appended. */
  lemma FunctionPlacement(c: ContractInfo, m: AstNode)
    requires m.nodeType == "FunctionDefinition"
    ensures m.kind == "constructor" ==> ApplyMember(c, m) == c.(constructorDef := Some(FunctionOf(m)))
    ensures m.kind != "constructor" ==> ApplyMember(c, m) == c.(functions := c.functions + [FunctionOf(m)])
  {
  }

  /** Members of unrecognised kinds are skipped. */
  lemma UnknownMemberSkipped(c: ContractInfo, m: AstNode)
    requires !(m.nodeType in ["VariableDeclaration", "FunctionDefinition", "EventDefinition",
                              "ModifierDefinition", "StructDefinition", "EnumDefinition"])
    ensures ApplyMember(c, m) == c
  {
  }

  /** No member ever adds a constructor to Functions. */
  lemma {:induction false} ConstructorNeverListed(ms: seq<AstNode>)
    ensures forall f :: f in Collect(ms, FunctionIn) ==> f.kind != "constructor"
  {
    if ms != [] {
      ConstructorNeverListed(ms[1..]);
    }
  }

  /** Variables and Mappings split the declarations: every one lands in exactly one of them. */
  lemma {:induction false} DeclarationsPartitioned(ms: seq<AstNode>)
    ensures multiset(Collect(ms, VariableIn)) + multiset(Collect(ms, MappingIn)) == multiset(Collect(ms, DeclarationIn))
  {
    if ms != [] {
      DeclarationsPartitioned(ms[1..]);
    }
  }

  /**
   * The pass over a fresh contract: Functions holds no constructor, and the constructor slot
   * holds the last constructor of all the contract definitions' members, or nothing.
   */
  lemma ConstructorSlot(name: string, ns: seq<AstNode>)
    ensures var r := ApplyNodes(EmptyContract(name), ns);
      (forall f :: f in r.functions ==> f.kind != "constructor") &&
      r.constructorDef == Latest(Collect(Collect(ns, MembersIn), ConstructorIn), None)
  {
    PassCollect(EmptyContract(name), ns);
    ConstructorNeverListed(Collect(ns, MembersIn));
  }
}
