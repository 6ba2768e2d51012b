/**
 * The document loader (ParseContractFile, from the decoded document on) and the registry
 * (ParseAllContracts). Reading a file and decoding its JSON are not modelled: each walked
 * entry carries what reading and decoding it gives.
 */
module Loader {
  import opened Wrappers
  import opened Collections
  import opened FilePaths
  import opened Ast
  import opened Domain
  import opened Engine
  import opened Contracts

  /** The decoded shape of a contract file: its optional contract name and its AST nodes. */
  datatype AbiFile = AbiFile(contractName: string, nodes: seq<AstNode>)

  /** What reading and decoding one file gives. */
  datatype Decoded = Unreadable | Malformed | Decoded(file: AbiFile)

  datatype LoadError =
    | ReadFailed            // os.ReadFile's error, returned unchanged
    | DecodeFailed(path: string)
    | NoAst(path: string)

  /** What ParseContractFile returns for `path`. */
  function LoadResult(path: string, d: Decoded): Result<ContractInfo, LoadError>
  {
    match d
    case Unreadable => Failure(ReadFailed)
    case Malformed => Failure(DecodeFailed(path))
    case Decoded(file) =>
      if |file.nodes| > 0 then Success(ApplyNodes(EmptyContract(file.contractName), file.nodes))
      else Failure(NoAst(path))
  }

  method ParseContractFile(path: string, d: Decoded) returns (r: Result<ContractInfo, LoadError>)
    ensures r == LoadResult(path, d)
  {
    match d {
      case Unreadable => return Failure(ReadFailed);
      case Malformed => return Failure(DecodeFailed(path));
      case Decoded(file) =>
        var contract := new Contract(file.contractName);
        if |file.nodes| > 0 {
          contract.ExtractContractInfoFromAST(file.nodes);
          r := Success(contract.Info());
        } else {
          r := Failure(NoAst(path));
        }
    }
  }

  /** A document with no AST nodes is an error and yields no contract; any other yields one. */
  lemma NoAstIsError(path: string, file: AbiFile)
    ensures LoadResult(path, Decoded(file)).Failure? <==> |file.nodes| == 0
    ensures |file.nodes| == 0 ==> LoadResult(path, Decoded(file)) == Failure(NoAst(path))
  {
  }

  /**
   * A loaded contract is named by the file's contract name, or else by the first non-empty
   * contract-definition name; it has the last pragma, every import and every base name in
   * order, the members of every contract definition in order, and no constructor among its
   * functions.
   */
  lemma LoadedContract(path: string, file: AbiFile)
    requires |file.nodes| > 0
    ensures LoadResult(path, Decoded(file)).Success?
    ensures var c := LoadResult(path, Decoded(file)).value;
      var members := Collect(file.nodes, MembersIn);
      c.name == (if file.contractName != "" then file.contractName
                 else Earliest(Collect(file.nodes, DefinitionNameIn), "")) &&
      c.pragma == Latest(Collect(file.nodes, PragmaIn), "") &&
      c.imports == Collect(file.nodes, ImportIn) &&
      c.inherits == Collect(file.nodes, BaseNamesIn) &&
      c.variables == Collect(members, VariableIn) &&
      c.mappings == Collect(members, MappingIn) &&
      c.functions == Collect(members, FunctionIn) &&
      c.constructorDef == Latest(Collect(members, ConstructorIn), None) &&
      c.events == Collect(members, EventIn) &&
      c.modifiers == Collect(members, ModifierIn) &&
      c.structs == Collect(members, StructIn) &&
      c.enums == Collect(members, EnumIn) &&
      (forall f :: f in c.functions ==> f.kind != "constructor")
  {
    PassCollect(EmptyContract(file.contractName), file.nodes);
    ConstructorSlot(file.contractName, file.nodes);
  }

  /** One entry of the directory walk. */
  datatype WalkEntry = WalkEntry(path: string, accessFailed: bool, isDir: bool, decoded: Decoded)

  datatype WalkError =
    | AccessFailed(path: string)
    | ParseFailed(path: string, cause: LoadError)

  /** The walk parses the regular files whose extension is ".json". */
  predicate IsContractFile(e: WalkEntry)
  {
    !e.isDir && Ext(e.path) == ".json"
  }

  /** The error the walk callback returns for `e`, if any. */
  function ErrorIn(e: WalkEntry): seq<WalkError>
  {
    if e.accessFailed then [AccessFailed(e.path)]
    else if IsContractFile(e) && LoadResult(e.path, e.decoded).Failure? then
      [ParseFailed(e.path, LoadResult(e.path, e.decoded).error)]
    else []
  }

  /** The registry insertion the walk callback makes for `e`, if any. */
  function InsertionIn(e: WalkEntry): seq<(string, ContractInfo)>
  {
    if !e.accessFailed && IsContractFile(e) && LoadResult(e.path, e.decoded).Success? &&
       LoadResult(e.path, e.decoded).value.name != ""
    then [(LoadResult(e.path, e.decoded).value.name, LoadResult(e.path, e.decoded).value)]
    else []
  }

  /** The walk callback for one entry: the error it returns, or the insertion it makes. */
  method VisitEntry(e: WalkEntry) returns (err: Option<WalkError>, insertion: seq<(string, ContractInfo)>)
    ensures err.None? <==> ErrorIn(e) == []
    ensures err.Some? ==> err.value == ErrorIn(e)[0]
    ensures err.None? ==> insertion == InsertionIn(e)
    ensures |insertion| <= 1
  {
    insertion := [];
    if e.accessFailed {
      return Some(AccessFailed(e.path)), [];
    }
    if IsContractFile(e) {
      var loaded := ParseContractFile(e.path, e.decoded);
      if loaded.Failure? {
        return Some(ParseFailed(e.path, loaded.error)), [];
      }
      var contract := loaded.value;
      if contract.name != "" {
        insertion := [(contract.name, contract)];
      }
    }
    err := None;
  }

  /**
   * ParseAllContracts over the walked entries, in walk order: the first error aborts with
   * that error and no map; otherwise every named contract is stored under its name, a later
   * one replacing an earlier one of the same name.
   */
  method ParseAllContracts(entries: seq<WalkEntry>) returns (r: Result<map<string, ContractInfo>, WalkError>)
    ensures Collect(entries, ErrorIn) != [] ==> r == Failure(Collect(entries, ErrorIn)[0])
    ensures Collect(entries, ErrorIn) == [] ==> r == Success(InsertAll(map[], Collect(entries, InsertionIn)))
  {
    var contracts := map[];
    for i := 0 to |entries|
      invariant Collect(entries[..i], ErrorIn) == []
      invariant contracts == InsertAll(map[], Collect(entries[..i], InsertionIn))
    {
      var err, insertion := VisitEntry(entries[i]);
      if err.Some? {
        CollectFirst(entries, i, ErrorIn);
        return Failure(err.value);
      }
      InsertStep(entries, i, ErrorIn, InsertionIn, contracts, insertion);
      if insertion != [] {
        contracts := contracts[insertion[0].0 := insertion[0].1];
      }
    }
    assert entries[..|entries|] == entries;
    return Success(contracts);
  }

  lemma {:induction false} InsertionsNamed(entries: seq<WalkEntry>)
    ensures forall p :: p in Collect(entries, InsertionIn) ==> p.0 != "" && p.1.name == p.0
  {
    if entries != [] {
      InsertionsNamed(entries[1..]);
    }
  }

  /**
   * In a registry built without error, a name is present exactly when some parsed contract
   * carries it, the empty name never is, and each name holds the LAST contract parsed with it.
   */
  lemma RegistryLookup(entries: seq<WalkEntry>, name: string)
    requires Collect(entries, ErrorIn) == []
    ensures var registry := InsertAll(map[], Collect(entries, InsertionIn));
      var pairs := Collect(entries, InsertionIn);
      "" !in registry &&
      (name in registry <==> exists i :: 0 <= i < |pairs| && pairs[i].1.name == name) &&
      (name in registry ==>
         (registry[name].name == name &&
          exists i :: 0 <= i < |pairs| && pairs[i].1 == registry[name] &&
            forall j :: i < j < |pairs| ==> pairs[j].1.name != name))
  {
    var pairs := Collect(entries, InsertionIn);
    InsertionsNamed(entries);
    InsertAllLookup(pairs, name);
    InsertAllLookup(pairs, "");
    assert forall i :: 0 <= i < |pairs| ==> pairs[i] in pairs;
  }

  /** Two contract files that yield the same name: the registry keeps the second one only. */
  lemma LaterFileWins(first: WalkEntry, second: WalkEntry, a: ContractInfo, b: ContractInfo)
    requires !first.accessFailed && IsContractFile(first) && LoadResult(first.path, first.decoded) == Success(a)
    requires !second.accessFailed && IsContractFile(second) && LoadResult(second.path, second.decoded) == Success(b)
    requires a.name == "Token" && b.name == "Token"
    ensures Collect([first, second], ErrorIn) == []
    ensures InsertAll(map[], Collect([first, second], InsertionIn)) == map["Token" := b]
  {
    CollectSnoc([first], second, ErrorIn);
    CollectSnoc([first], second, InsertionIn);
    CollectOne(first, ErrorIn);
    CollectOne(first, InsertionIn);
    assert [first] + [second] == [first, second];
    var pairs := Collect([first, second], InsertionIn);
    assert pairs == [("Token", a)] + [("Token", b)];
    assert pairs[..1] == [("Token", a)];
    assert InsertAll(map[], pairs[..1]) == map["Token" := a];
  }
}
