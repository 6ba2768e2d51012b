# Solidity AST extractor: a Dafny model

The repository is a terminal browser for Solidity contracts. Its core, `parser/parser.go`,
reads the compiler's JSON output for each contract file, walks the AST once and fills a
`Contract` record. Each record holds:

- the contract name, pragma, imports and base contracts;
- the state variables, with mappings kept apart;
- the functions, with the constructor kept apart;
- the events, modifiers, structs and enums, each one rendered to strings.

Contracts are collected into a registry keyed by name. Two smaller pieces sit beside the
parser: `main.go` turns plain ABI files into contracts named after their files, and
`ui/ui.go` keeps a list's selected row in range.

This project models that core and proves what it produces.

- **`TypeNames`** models the type renderer `extractTypeName` as a total recursive function.
- **`Values`** models the value renderer (`extractValue`, `extractValueFromNode`,
  `extractFunctionCall`) and keeps the Go typing that shapes it. The operands of unary and
  binary operations, and a callee that is not an identifier, are `*ASTNode` values handed to
  a type switch that has no case for that type. They are the `JNodePtr` case and render as
  "". Only call arguments are rendered recursively.
- **`ValueDesign`** holds the intended renderer, with every operand rendered:
  `extractValueFromNode` passes the operands to `extractValue` and formats them with `%s%s`
  and `(%s %s %s)`, so it evidently means to render them. Lemmas prove that the two
  renderers agree on plain trees (no unary or binary operations, and only identifiers as
  callees) and differ on `1 + 2` and `-x`.
- **`Extract`** models the per-node builders. Each append loop is a method, proved equal to
  a declarative definition.
- **`Engine`** defines the extraction pass as folds over `ContractInfo` values. Closed forms
  state what the whole pass yields: which member lands in which list, in which order, and
  which name, pragma and constructor win.
- **`Contracts`** models `Contract` as a class whose methods change its fields in place,
  as `ExtractContractInfoFromAST` and `ExtractContractDefinition` do. Each method is proved
  to produce the fold of `Engine`.
- **`Loader`** models the post-decode logic of `ParseContractFile` and the walk of
  `ParseAllContracts`. The walk is a sequence of entries, each carrying what reading and
  decoding that file gave.
- **`Abi`** models the per-file body of `parseAllABIs` in `main.go`. `FilePaths` models the
  `filepath.Ext` and `filepath.Base` that name its contracts.
- **`Ui`** models `validateSelectedRow`.

The model keeps three behaviours of the code that a reader might not expect:

- Every `ContractDefinition` of a file is processed, not only the first. Base names and
  members accumulate across all of them, and the name comes from the first one with a
  non-empty name.
- Unary and binary operations and non-identifier callees do not render their operands (see
  `Values` above).
- The ABI registry of `main.go` stores a file named `.json` under the empty name. The
  parser's registry drops empty names.

## Model

| member | source | states |
|---|---|---|
| TypeNames.ExtractTypeName | parser/parser.go:500-531 | no contract of its own; specified by the TypeNames lemmas below (UnrecognisedRendersEmpty, MappingRendering, ArrayRendering, UserDefinedFallback, NestedArrayRendering) |
| TypeNames.UnrecognisedRendersEmpty | parser/parser.go:500-531 | a nil type, or a node of any kind other than the four handled ones, renders as "" |
| TypeNames.MappingRendering | parser/parser.go:516-520 | a mapping renders as `mapping(K => V)`, with K and V its key and value types rendered recursively |
| TypeNames.ArrayRendering | parser/parser.go:521-527 | an array renders as its base type followed by `[]` when it has no length, or by `[N]` when it has one |
| TypeNames.UserDefinedFallback | parser/parser.go:507-515 | a user-defined type gives the first of these that is non-empty: resolved type string, declared name, referenced path name; otherwise "" |
| TypeNames.NestedArrayRendering | parser/parser.go:521-527 | a base type wrapped in n dynamic-array nodes renders as the base followed by n copies of `[]` |
| TypeNames.BalancesType | parser/parser.go:505-520 | `mapping(address => uint256)` renders exactly so |
| TypeNames.NestedMappingRendering | parser/parser.go:516-520 | a mapping whose value is a mapping renders the inner mapping in place of V |
| Values.FormatScalar | parser/parser.go:392 | no contract of its own; the `%v` of a string, number or boolean (lines 392 and 543), specified by Values.ScalarRendering and Values.LeafRendering |
| Values.ExtractValue | parser/parser.go:534-562 | no contract of its own; specified by Values.ScalarRendering and ValueDesign.PlainValuesAgree |
| Values.ExtractValueFromNode | parser/parser.go:385-413 | no contract of its own; specified by Values.LeafRendering, Values.OperationsDegrade and ValueDesign.PlainNodesAgree |
| Values.ExtractFunctionCall | parser/parser.go:566-582 | no contract of its own; specified by Values.CallRendering and Values.ExtractArguments |
| Text.Join | parser/parser.go:581 | no contract of its own; `strings.Join` (lines 282 and 581), specified by Text.JoinWithoutSeparator and Values.CallRendering |
| Values.ExtractArguments | parser/parser.go:576-580 | the argument loop renders every argument, in order, one string per argument |
| Values.ScalarRendering | parser/parser.go:534-543 | a string is returned unchanged; a boolean renders as true/false; a number renders as its printed text; nil, arrays and node pointers render as "" |
| Values.LeafRendering | parser/parser.go:389-400 | a literal gives its value when present, otherwise its hex value; an identifier gives its name; any unhandled kind gives "" |
| Values.OperationsDegrade | parser/parser.go:401-407 | a unary operation renders as its operator alone, and a binary one as `( op )`, whatever their operands |
| Values.CallRendering | parser/parser.go:566-582 | a call without a callee gives ""; otherwise the identifier's name, or "" for any other callee, is followed by the rendered arguments joined by ", " in parentheses |
| ValueDesign.PlainValuesAgree | parser/parser.go:534-560 | on values built only from scalars, literals, identifiers and calls of identifiers, at any nesting depth, the source renders what the intended renderer does |
| ValueDesign.PlainNodesAgree | parser/parser.go:385-413 | the same agreement for one node |
| ValueDesign.PlainArgumentsAgree | parser/parser.go:576-580 | the same agreement for an argument list |
| ValueDesign.BinaryOperationDiffers | parser/parser.go:404-407 | for `1 + 2` the intended renderer gives `(1 + 2)` and the source gives `( + )` |
| ValueDesign.UnaryOperationDiffers | parser/parser.go:401-403 | for `-x` the intended renderer gives `-x` and the source gives `-` |
| Extract.ExtractParameter | parser/parser.go:473-488 | a parameter keeps its name and rendered type; it is indexed exactly when the source flag is present and true |
| Extract.ExtractVariable | parser/parser.go:334-350 | a variable copies the declaration's name, visibility, storage, constancy, mutability and selector; its type is the rendered type node; its value is the rendered initial value, or "" when there is none |
| Extract.ExtractPragmaDirective | parser/parser.go:281-283 | the pragma is `pragma ` followed by every literal token, concatenated, and `;` |
| Extract.ExtractImportDirective | parser/parser.go:286-292 | an import keeps its absolute path and file; its alias is the node's name |
| Extract.ExtractParameterList | parser/parser.go:369-374 | the parameter loop yields one parameter per node, in order; a missing list yields none |
| Extract.ExtractModifiers | parser/parser.go:491-497 | the applied modifiers' names, in application order |
| Extract.ExtractFunction | parser/parser.go:353-383 | a function with its overrides, parameters, return parameters and modifiers, each in source order |
| Extract.ExtractEvent | parser/parser.go:418-430 | an event with its name and its parameters in order |
| Extract.ExtractModifier | parser/parser.go:433-445 | a modifier definition with its name and its parameters in order |
| Extract.ExtractStruct | parser/parser.go:448-457 | every struct member becomes a variable, mappings included, in order |
| Extract.ExtractEnum | parser/parser.go:460-470 | the names of the EnumValue members, in order; other members are skipped |
| Extract.ParametersKeepOrder | parser/parser.go:369-374 | the i-th parameter comes from the i-th node and keeps that node's own indexed flag |
| Extract.EnumValuesKept | parser/parser.go:464-468 | a name is among an enum's values exactly when some EnumValue member carries it |
| Extract.TransferEvent | parser/parser.go:418-430 | `Transfer(address indexed from, uint256 value)` yields both parameters with their types and flags |
| Engine.ApplyMember | parser/parser.go:302-329 | no contract of its own; specified by Engine.VariablePlacement, Engine.FunctionPlacement and Engine.UnknownMemberSkipped |
| Engine.ApplyNode | parser/parser.go:263-275 | no contract of its own; specified, over the whole pass, by Engine.PassCollect and Engine.ConstructorSlot |
| Engine.VariablePlacement | parser/parser.go:303-309 | a variable declaration appends to Mappings exactly when its type node is a mapping, and otherwise to Variables; nothing else changes |
| Engine.FunctionPlacement | parser/parser.go:310-316 | a constructor replaces the constructor slot and any other function is appended to Functions; nothing else changes |
| Engine.UnknownMemberSkipped | parser/parser.go:301-330 | a member of any other kind leaves the contract unchanged |
| Engine.MembersCollect | parser/parser.go:301-330 | the member loop appends, to each list, exactly the members of its kind in source order, and leaves the last constructor in the slot |
| Engine.ConstructorNeverListed | parser/parser.go:310-316 | no member loop ever puts a constructor into Functions |
| Engine.DeclarationsPartitioned | parser/parser.go:303-309 | every variable declaration ends up in exactly one of Variables and Mappings |
| Engine.PassCollect | parser/parser.go:261-278 | across the whole pass: a name already set is kept, and otherwise the name is that of the first named contract definition; the last pragma wins; imports and base names accumulate in order; the members of every contract definition are dispatched |
| Engine.ConstructorSlot | parser/parser.go:310-316 | after the pass, Functions holds no constructor and the slot holds the last constructor of all definitions |
| Contracts.Contract.constructor | parser/parser.go:243-245 | a new contract has only its name set |
| Contracts.Contract.ExtractContractDefinition | parser/parser.go:295-331 | appends the base names, then dispatches every member; the new state is the Engine fold of the old one |
| Contracts.Contract.DispatchMember | parser/parser.go:302-329 | one member dispatched on its kind, as the Engine's member step says |
| Contracts.Contract.ExtractContractInfoFromAST | parser/parser.go:261-278 | the new state is the Engine fold of the old one over the top-level nodes |
| Loader.LoadResult | parser/parser.go:231-258 | no contract of its own; specified by Loader.NoAstIsError and Loader.LoadedContract, and computed by the method Loader.ParseContractFile |
| Loader.ParseContractFile | parser/parser.go:231-258 | read and decode failures are returned as errors; a document without AST nodes is an error; otherwise the result is the pass over a contract named by the file's `contractName` field |
| Loader.NoAstIsError | parser/parser.go:248-255 | loading fails exactly when the document has no AST nodes, and then with the no-AST error |
| Loader.LoadedContract | parser/parser.go:240-257 | every field of a loaded contract in closed form: name, pragma, imports, inherits and each member list |
| Loader.VisitEntry | parser/parser.go:209-222 | the walk callback: an access error, then a parse error of a `.json` file, otherwise the insertion of a named contract |
| Loader.ParseAllContracts | parser/parser.go:207-228 | the first error aborts with no map; otherwise every named contract is inserted in walk order |
| Loader.RegistryLookup | parser/parser.go:218-220 | the empty name is never a key; a name is a key exactly when some parsed contract carries it, and it holds the last such contract |
| Loader.LaterFileWins | parser/parser.go:218-220 | two files yielding `Token` leave only the second one in the registry |
| FilePaths.Base | main.go:237 | no contract of its own; `filepath.Base`, specified by FilePaths.StemOfFile and FilePaths.TokenStem |
| FilePaths.Stem | main.go:237-238 | no contract of its own; specified by FilePaths.StemThenExt, FilePaths.StemOfFile and FilePaths.TokenStem |
| FilePaths.Ext | main.go:232 | filepath.Ext gives "" or a suffix of the path that starts with '.' and has no later '.' or '/' |
| FilePaths.ExtEmpty | main.go:232 | the extension is "" exactly when the last path element has no '.' |
| FilePaths.StemThenExt | main.go:237-238 | the stem followed by the extension is the whole base name |
| FilePaths.StemOfFile | main.go:237-238 | `dir/name.ext` is named `name` |
| FilePaths.TokenStem | main.go:232-238 | `data/Token.json` has the extension `.json` and the stem `Token` |
| Abi.ClassifyEntries | main.go:239-261 | the entry loop keeps the function entries and the event entries, in order, with their fields copied; Inherits and Calls stay empty |
| Abi.EntriesPartitioned | main.go:243-261 | every entry is a function, an event or skipped |
| Abi.EntriesKeepOrder | main.go:245-252 | two function entries appear in Functions in their order in the file, each with name, inputs, outputs and mutability copied |
| Abi.FunctionAt | main.go:245-252 | a function entry lands right after the functions that precede it |
| Abi.EventAt | main.go:253-258 | an event entry lands right after the events that precede it, with name and inputs copied |
| Abi.TokenContract | main.go:237-263 | `data/Token.json` yields a contract named `Token` with no base names and no calls |
| Abi.VisitAbiEntry | main.go:228-265 | the walk callback: an access error, then a parse error of a `.json` file, otherwise the insertion of the file's contract under its stem |
| Abi.ParseAllAbis | main.go:226-271 | the first error aborts with no map; otherwise every ABI file's contract is inserted under its stem, a later file overwriting an earlier one |
| Abi.AbiRegistryLookup | main.go:263 | each stem holds the contract of the last file with that stem, named by it, with no base names and no calls |
| Abi.EmptyStemStored | main.go:237-263 | a file named `.json` is stored under the empty name |
| Ui.ClampedRow | ui/ui.go:33-41 | an empty list selects 0; on a non-empty list an in-range row is kept, a row past the end becomes the last row, and a negative row becomes 0 |
| Ui.ClampIdempotent | ui/ui.go:33-41 | validating twice is the same as validating once |
| Ui.ClampNearest | ui/ui.go:33-41 | the validated row is the valid index nearest to the requested one |
| Ui.List.ValidateSelectedRow | ui/ui.go:33-41 | rows are never modified; the selected row becomes the clamped row, so it is non-negative and, on a non-empty list, below the row count |

## Left out

- Reading files, walking directories and decoding JSON (`os.ReadFile`, `filepath.Walk`, `json.Unmarshal`, and `parseABIFile` in `main.go`) are inputs. Each walked entry says whether it could be accessed, whether it is a directory, and what decoding it gave.
- Error messages are error kinds. The texts of the wrapped errors are not modelled.
- The JSON re-encoding inside `extractValue` of a decoded map into an `ASTNode` is left out, and so are its failures. The model goes straight from the decoded object to the node.
- `fmt.Printf` diagnostics are left out. They do not affect any result.
- Numbers and array lengths are kept as the text `%v` prints for them. Floating-point formatting is not modelled.
- Values.ExtractValueFromNode: a literal whose value decodes to a JSON array or object renders as "" here. Go prints such a value with `%v` in its map or slice syntax.
- Contracts.Contract.ExtractContractInfoFromAST: the `error` the source returns is always nil, so it is not modelled. The branch of `ParseContractFile` that tests it can never be taken.
- The constructor is held as a value in an `Option`. The source holds a pointer to a copy, so identity can play no part.
- The order of Go map iteration is not modelled. The registries are maps, and nothing here depends on an order.
- Only `/` is modelled as a path separator in `filepath.Ext` and `filepath.Base`. Volume names are not modelled.
- The terminal UI (`main` in `main.go`, and `UpdateUI` in `ui/ui.go`) is left out: it is interactive rendering and event handling.
- `Inheritance` entries in ABI files are decoded by the source but never used, so the model does not carry them.
