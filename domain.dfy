/** The domain model the extractor produces for one contract file. */
module Domain {
  import opened Wrappers

  datatype Import = Import(absolutePath: string, file: string, alias: string)

  /** A state variable or struct member; `typeString` is the rendered type. */
  datatype Variable = Variable(
    name: string,
    typeString: string,
    visibility: string,
    stateVariable: bool,
    storageLocation: string,
    constant: bool,
    mutability: string,
    functionSelector: string,
    value: string)

  datatype Parameter = Parameter(name: string, typeString: string, indexed: bool)

  datatype Function = Function(
    name: string,
    visibility: string,
    kind: string,
    stateMutability: string,
    parameters: seq<Parameter>,
    returnParameters: seq<Parameter>,
    modifiers: seq<string>,
    baseFunctions: seq<int>,
    overrides: seq<string>)

  datatype Event = Event(name: string, parameters: seq<Parameter>)

  datatype Modifier = Modifier(name: string, parameters: seq<Parameter>)

  datatype Struct = Struct(name: string, members: seq<Variable>)

  datatype Enum = Enum(name: string, values: seq<string>)

  /** The value of a Contract: every field of the source's Contract struct. */
  datatype ContractInfo = ContractInfo(
    name: string,
    pragma: string,
    imports: seq<Import>,
    inherits: seq<string>,
    constructorDef: Option<Function>,
    variables: seq<Variable>,
    functions: seq<Function>,
    events: seq<Event>,
    modifiers: seq<Modifier>,
    structs: seq<Struct>,
    enums: seq<Enum>,
    mappings: seq<Variable>)

  /** A contract with only its name set, as the loader creates it. */
  function EmptyContract(name: string): ContractInfo
  {
    ContractInfo(name, "", [], [], None, [], [], [], [], [], [], [])
  }
}
