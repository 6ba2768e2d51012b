/**
 * The type-descriptor subtree of a declaration (Go's TypeName) and its renderer,
 * extractTypeName: a total function to the canonical type string.
 */
module TypeNames {
  import opened Wrappers

  datatype TypeDescriptions = TypeDescriptions(typeIdentifier: string, typeString: string)

  datatype IdentifierPath = IdentifierPath(name: string)

  /**
   * One flat record for every kind of type node, as in the source: `nodeType` says which
   * of the optional fields are meaningful. The array length is kept as the text that
   * `%v` prints for it.
   */
  datatype TypeName = TypeName(
    nodeType: string,
    name: string,
    baseType: Option<TypeName>,
    length: Option<string>,
    keyType: Option<TypeName>,
    valueType: Option<TypeName>,
    typeDescriptions: Option<TypeDescriptions>,
    pathNode: Option<IdentifierPath>)

  /** The renderer. Never fails: a missing or unrecognised node gives "". */
  function ExtractTypeName(t: Option<TypeName>): string
  {
    match t
    case None => ""
    case Some(tn) =>
      if tn.nodeType == "ElementaryTypeName" then tn.name
      else if tn.nodeType == "UserDefinedTypeName" then
        if tn.typeDescriptions.Some? && tn.typeDescriptions.value.typeString != "" then
          tn.typeDescriptions.value.typeString
        else if tn.name != "" then tn.name
        else if tn.pathNode.Some? && tn.pathNode.value.name != "" then tn.pathNode.value.name
        else ""
      else if tn.nodeType == "Mapping" then
        "mapping(" + ExtractTypeName(tn.keyType) + " => " + ExtractTypeName(tn.valueType) + ")"
      else if tn.nodeType == "ArrayTypeName" then
        var base := ExtractTypeName(tn.baseType);
        if tn.length.Some? then base + "[" + tn.length.value + "]" else base + "[]"
      else ""
  }

  predicate IsRecognisedKind(kind: string)
  {
    kind == "ElementaryTypeName" || kind == "UserDefinedTypeName" || kind == "Mapping" || kind == "ArrayTypeName"
  }

  /** Convenience constructors for the shapes the compiler emits. */
  function Elementary(name: string): TypeName
  {
    TypeName("ElementaryTypeName", name, None, None, None, None, None, None)
  }

  function MappingType(key: TypeName, value: TypeName): TypeName
  {
    TypeName("Mapping", "", None, None, Some(key), Some(value), None, None)
  }

  function ArrayType(base: TypeName, length: Option<string>): TypeName
  {
    TypeName("ArrayTypeName", "", Some(base), length, None, None, None, None)
  }

  /** A nil type and a node of any other kind both render as "". */
  lemma UnrecognisedRendersEmpty(t: Option<TypeName>)
    requires t.None? || !IsRecognisedKind(t.value.nodeType)
    ensures ExtractTypeName(t) == ""
  {
  }

  /** A mapping renders its key and value types recursively, whatever else the node holds. */
  lemma MappingRendering(tn: TypeName)
    requires tn.nodeType == "Mapping"
    ensures ExtractTypeName(Some(tn)) ==
      "mapping(" + ExtractTypeName(tn.keyType) + " => " + ExtractTypeName(tn.valueType) + ")"
  {
  }

  /** An array is its base type followed by "[]", or by "[N]" when a length is present. */
  lemma ArrayRendering(tn: TypeName)
    requires tn.nodeType == "ArrayTypeName"
    ensures tn.length.None? ==> ExtractTypeName(Some(tn)) == ExtractTypeName(tn.baseType) + "[]"
    ensures tn.length.Some? ==>
      ExtractTypeName(Some(tn)) == ExtractTypeName(tn.baseType) + "[" + tn.length.value + "]"
  {
  }

  /**
   * A user-defined type prefers a non-empty resolved type string, then a non-empty declared
   * name, then a non-empty referenced-path name; otherwise it renders as "".
   */
  lemma UserDefinedFallback(tn: TypeName)
    requires tn.nodeType == "UserDefinedTypeName"
    ensures var r := ExtractTypeName(Some(tn));
      (tn.typeDescriptions.Some? && tn.typeDescriptions.value.typeString != "" ==> r == tn.typeDescriptions.value.typeString) &&
      ((tn.typeDescriptions.None? || tn.typeDescriptions.value.typeString == "") && tn.name != "" ==> r == tn.name) &&
      ((tn.typeDescriptions.None? || tn.typeDescriptions.value.typeString == "") && tn.name == "" ==>
         r == if tn.pathNode.Some? then tn.pathNode.value.name else "")
  {
  }

  /** `base` wrapped in `depth` dynamic-array nodes. */
  function DynamicArrayOf(base: TypeName, depth: nat): TypeName
  {
    if depth == 0 then base else ArrayType(DynamicArrayOf(base, depth - 1), None)
  }

  function Repeat(s: string, n: nat): string
  {
    if n == 0 then "" else Repeat(s, n - 1) + s
  }

  /** Each level of a nested dynamic array adds one "[]" after the base type. */
  lemma {:induction false} NestedArrayRendering(base: TypeName, depth: nat)
    ensures ExtractTypeName(Some(DynamicArrayOf(base, depth))) == ExtractTypeName(Some(base)) + Repeat("[]", depth)
  {
    if depth > 0 {
      NestedArrayRendering(base, depth - 1);
    }
  }

  /** The state variable `mapping(address => uint256) balances`. */
  lemma BalancesType()
    ensures ExtractTypeName(Some(MappingType(Elementary("address"), Elementary("uint256")))) ==
      "mapping(address => uint256)"
  {
  }

  /** A mapping whose value is again a mapping renders both levels, the inner one in place. */
  lemma NestedMappingRendering(outerKey: TypeName, innerKey: TypeName, value: TypeName)
    ensures ExtractTypeName(Some(MappingType(outerKey, MappingType(innerKey, value)))) ==
      "mapping(" + ExtractTypeName(Some(outerKey)) + " => " +
        ("mapping(" + ExtractTypeName(Some(innerKey)) + " => " + ExtractTypeName(Some(value)) + ")") + ")"
  {
    MappingRendering(MappingType(innerKey, value));
    MappingRendering(MappingType(outerKey, MappingType(innerKey, value)));
  }
}
