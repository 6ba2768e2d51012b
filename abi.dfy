/**
 * The ABI loader of the viewer (parseAllABIs): every ".json" file becomes a contract named
 * after the file, holding its "function" and "event" entries. Reading and decoding a file
 * (parseABIFile) is not modelled: each walked entry carries its decoded ABI entries or the
 * fact that reading or decoding failed.
 */
module Abi {
  import opened Wrappers
  import opened Collections
  import opened FilePaths

  datatype Param = Param(name: string, typeName: string)

  /** One decoded ABI entry; its base-contract list is decoded but never used. */
  datatype AbiEntry = AbiEntry(entryType: string, name: string, inputs: seq<Param>,
                               outputs: seq<Param>, stateMutability: string)

  datatype AbiFunction = AbiFunction(name: string, inputs: seq<Param>, outputs: seq<Param>,
                                     stateMutability: string)

  datatype AbiEvent = AbiEvent(name: string, inputs: seq<Param>)

  datatype AbiContract = AbiContract(name: string, functions: seq<AbiFunction>, events: seq<AbiEvent>,
                                     inherits: seq<string>, calls: map<string, seq<string>>)

  /** The function a "function" entry contributes. */
  function FunctionEntryIn(e: AbiEntry): seq<AbiFunction>
  {
    if e.entryType == "function" then [AbiFunction(e.name, e.inputs, e.outputs, e.stateMutability)] else []
  }

  /** The event an "event" entry contributes. */
  function EventEntryIn(e: AbiEntry): seq<AbiEvent>
  {
    if e.entryType == "event" then [AbiEvent(e.name, e.inputs)] else []
  }

  /** An entry of any other type, which is skipped. */
  function SkippedEntryIn(e: AbiEntry): seq<AbiEntry>
  {
    if e.entryType != "function" && e.entryType != "event" then [e] else []
  }

  /** The contract named `name` holding the function and event entries, in order. */
  function ContractNamed(name: string, entries: seq<AbiEntry>): AbiContract
  {
    AbiContract(name, Collect(entries, FunctionEntryIn), Collect(entries, EventEntryIn), [], map[])
  }

  /** The contract a file at `path` with these entries yields: it is named after the file. */
  function AbiContractOf(path: string, entries: seq<AbiEntry>): AbiContract
  {
    ContractNamed(Stem(path), entries)
  }

  /** The entry loop of the per-file body: classify the entries of a contract called `contractName`. */
  method ClassifyEntries(contractName: string, entries: seq<AbiEntry>) returns (contract: AbiContract)
    ensures contract == ContractNamed(contractName, entries)
  {
    contract := AbiContract(contractName, [], [], [], map[]);
    for i := 0 to |entries|
      invariant contract == ContractNamed(contractName, entries[..i])
    {
      var entry := entries[i];
      assert entries[..i + 1] == entries[..i] + [entry];
      CollectSnoc(entries[..i], entry, FunctionEntryIn);
      CollectSnoc(entries[..i], entry, EventEntryIn);
      if entry.entryType == "function" {
        var f := AbiFunction(entry.name, entry.inputs, entry.outputs, entry.stateMutability);
        contract := contract.(functions := contract.functions + [f]);
      } else if entry.entryType == "event" {
        var event := AbiEvent(entry.name, entry.inputs);
        contract := contract.(events := contract.events + [event]);
      }
    }
    assert entries[..|entries|] == entries;
  }

  /** Every entry is a function, an event or skipped: the three lists partition the entries. */
  lemma {:induction false} EntriesPartitioned(entries: seq<AbiEntry>)
    ensures |Collect(entries, FunctionEntryIn)| + |Collect(entries, EventEntryIn)| +
            |Collect(entries, SkippedEntryIn)| == |entries|
  {
    if entries != [] {
      EntriesPartitioned(entries[1..]);
    }
  }

  /**
   * The functions are exactly the "function" entries, in order, with their name, inputs,
   * outputs and state mutability copied (EventAt states the same of the events).
   */
  lemma {:induction false} EntriesKeepOrder(entries: seq<AbiEntry>, i: nat, j: nat)
    requires i < j < |entries| && entries[i].entryType == "function" && entries[j].entryType == "function"
    ensures var fs := Collect(entries, FunctionEntryIn);
      var k := |Collect(entries[..i], FunctionEntryIn)|;
      k < |Collect(entries[..j], FunctionEntryIn)| < |fs| &&
      fs[k] == AbiFunction(entries[i].name, entries[i].inputs, entries[i].outputs, entries[i].stateMutability) &&
      fs[|Collect(entries[..j], FunctionEntryIn)|] ==
        AbiFunction(entries[j].name, entries[j].inputs, entries[j].outputs, entries[j].stateMutability)
  {
    FunctionAt(entries, i);
    FunctionAt(entries, j);
    assert entries[..j] == entries[..i + 1] + entries[i + 1..j];
    CollectAppend(entries[..i + 1], entries[i + 1..j], FunctionEntryIn);
    assert entries[..i + 1] == entries[..i] + [entries[i]];
    CollectSnoc(entries[..i], entries[i], FunctionEntryIn);
  }

  /** A "function" entry at index i lands right after the functions of the entries before it. */
  lemma FunctionAt(entries: seq<AbiEntry>, i: nat)
    requires i < |entries| && entries[i].entryType == "function"
    ensures var fs := Collect(entries, FunctionEntryIn);
      var k := |Collect(entries[..i], FunctionEntryIn)|;
      k < |fs| &&
      fs[k] == AbiFunction(entries[i].name, entries[i].inputs, entries[i].outputs, entries[i].stateMutability)
  {
    assert entries == entries[..i] + ([entries[i]] + entries[i + 1..]);
    CollectAppend(entries[..i], [entries[i]] + entries[i + 1..], FunctionEntryIn);
    CollectAppend([entries[i]], entries[i + 1..], FunctionEntryIn);
    CollectOne(entries[i], FunctionEntryIn);
  }

  /** An "event" entry at index i lands right after the events of the entries before it. */
  lemma EventAt(entries: seq<AbiEntry>, i: nat)
    requires i < |entries| && entries[i].entryType == "event"
    ensures var es := Collect(entries, EventEntryIn);
      var k := |Collect(entries[..i], EventEntryIn)|;
      k < |es| && es[k] == AbiEvent(entries[i].name, entries[i].inputs)
  {
    assert entries == entries[..i] + ([entries[i]] + entries[i + 1..]);
    CollectAppend(entries[..i], [entries[i]] + entries[i + 1..], EventEntryIn);
    CollectAppend([entries[i]], entries[i + 1..], EventEntryIn);
    CollectOne(entries[i], EventEntryIn);
  }

  /** "data/Token.json" yields a contract named "Token" with no base names and no calls. */
  lemma TokenContract(entries: seq<AbiEntry>)
    ensures AbiContractOf("data/Token.json", entries).name == "Token"
    ensures AbiContractOf("data/Token.json", entries).inherits == []
    ensures AbiContractOf("data/Token.json", entries).calls == map[]
  {
    TokenStem();
  }

  /** One entry of the directory walk; `parsed` is None when reading or decoding failed. */
  datatype AbiWalkEntry = AbiWalkEntry(path: string, accessFailed: bool, isDir: bool,
                                       parsed: Option<seq<AbiEntry>>)

  datatype AbiWalkError =
    | AccessFailed(path: string)
    | ParseFailed(path: string)

  predicate IsAbiFile(e: AbiWalkEntry)
  {
    !e.isDir && Ext(e.path) == ".json"
  }

  /** The error the walk callback returns for `e`, if any. */
  function AbiErrorIn(e: AbiWalkEntry): seq<AbiWalkError>
  {
    if e.accessFailed then [AccessFailed(e.path)]
    else if IsAbiFile(e) && e.parsed.None? then [ParseFailed(e.path)]
    else []
  }

  /** The registry insertion the walk callback makes for `e`, if any; even an empty stem is stored. */
  function AbiInsertionIn(e: AbiWalkEntry): seq<(string, AbiContract)>
  {
    if !e.accessFailed && IsAbiFile(e) && e.parsed.Some? then
      [(Stem(e.path), AbiContractOf(e.path, e.parsed.value))]
    else []
  }

  /** The walk callback for one entry: the error it returns, or the insertion it makes. */
  method VisitAbiEntry(e: AbiWalkEntry) returns (err: Option<AbiWalkError>, insertion: seq<(string, AbiContract)>)
    ensures err.None? <==> AbiErrorIn(e) == []
    ensures err.Some? ==> err.value == AbiErrorIn(e)[0]
    ensures err.None? ==> insertion == AbiInsertionIn(e)
    ensures |insertion| <= 1
  {
    insertion := [];
    if e.accessFailed {
      return Some(AccessFailed(e.path)), [];
    }
    if IsAbiFile(e) {
      if e.parsed.None? {
        return Some(ParseFailed(e.path)), [];
      }
      var contract := ClassifyEntries(Stem(e.path), e.parsed.value);
      insertion := [(contract.name, contract)];
    }
    err := None;
  }

  /**
   * parseAllABIs over the walked entries: the first error aborts with no map; otherwise
   * each ABI file's contract is stored under its stem, a later file replacing an earlier one.
   */
  method ParseAllAbis(entries: seq<AbiWalkEntry>) returns (r: Result<map<string, AbiContract>, AbiWalkError>)
    ensures Collect(entries, AbiErrorIn) != [] ==> r == Failure(Collect(entries, AbiErrorIn)[0])
    ensures Collect(entries, AbiErrorIn) == [] ==> r == Success(InsertAll(map[], Collect(entries, AbiInsertionIn)))
  {
    var contracts := map[];
    for i := 0 to |entries|
      invariant Collect(entries[..i], AbiErrorIn) == []
      invariant contracts == InsertAll(map[], Collect(entries[..i], AbiInsertionIn))
    {
      var err, insertion := VisitAbiEntry(entries[i]);
      if err.Some? {
        CollectFirst(entries, i, AbiErrorIn);
        return Failure(err.value);
      }
      InsertStep(entries, i, AbiErrorIn, AbiInsertionIn, contracts, insertion);
      if insertion != [] {
        contracts := contracts[insertion[0].0 := insertion[0].1];
      }
    }
    assert entries[..|entries|] == entries;
    return Success(contracts);
  }

  lemma {:induction false} AbiInsertionsNamed(entries: seq<AbiWalkEntry>)
    ensures forall p :: p in Collect(entries, AbiInsertionIn) ==> p.1.name == p.0 && p.1.inherits == [] && p.1.calls == map[]
  {
    if entries != [] {
      AbiInsertionsNamed(entries[1..]);
    }
  }

  /**
   * In a registry built without error, each stem holds the contract of the LAST file with
   * that stem, named by it, with no base names and an empty call map.
   */
  lemma AbiRegistryLookup(entries: seq<AbiWalkEntry>, name: string)
    requires Collect(entries, AbiErrorIn) == []
    ensures var registry := InsertAll(map[], Collect(entries, AbiInsertionIn));
      var pairs := Collect(entries, AbiInsertionIn);
      (name in registry <==> exists i :: 0 <= i < |pairs| && pairs[i].0 == name) &&
      (name in registry ==>
         (registry[name].name == name && registry[name].inherits == [] && registry[name].calls == map[] &&
          exists i :: 0 <= i < |pairs| && pairs[i].1 == registry[name] &&
            forall j :: i < j < |pairs| ==> pairs[j].0 != name))
  {
    var pairs := Collect(entries, AbiInsertionIn);
    AbiInsertionsNamed(entries);
    InsertAllLookup(pairs, name);
    assert forall i :: 0 <= i < |pairs| ==> pairs[i] in pairs;
  }

  /**
   * Unlike the parser's registry, this one keeps an empty name: a file called ".json" has
   * the empty stem and is stored under "".
   */
  lemma EmptyStemStored(entries: seq<AbiEntry>)
    ensures AbiInsertionIn(AbiWalkEntry("data/.json", false, false, Some(entries))) ==
      [("", AbiContract("", Collect(entries, FunctionEntryIn), Collect(entries, EventEntryIn), [], map[]))]
  {
    assert IsExtension(".json");
    assert "data/.json" == "data/" + ".json";
    ExtOfSuffix("data/", ".json");
    assert "data/.json" == "data" + "/" + "" + ".json";
    StemOfFile("data", "", ".json");
  }
}
