/**
 * The name extractors: the name each Potato Pedigree record gives its breed,
 * and the name the Europotato database uses for the breed of a pedigree record,
 * through the map from Europotato page file names to Europotato names.
 */
module NameExtractors {
  import opened Wrappers
  import opened Extractor
  import opened Dicts

  /** The entry the comprehension of `PedigreeNameExtractor.extract` makes for one record, if any. */
  function PedigreeNamePairs(pedigrees: seq<PedigreeRecord>): seq<(Name, seq<Signal>)>
    decreases |pedigrees|
  {
    if pedigrees == [] then []
    else
      var p := pedigrees[|pedigrees| - 1];
      PedigreeNamePairs(pedigrees[..|pedigrees| - 1])
        + if p.name.Some? then [(Name(p.name.value, Pedigree), [Signal(PedigreeName, Str(p.name.value))])] else []
  }

  /** `PedigreeNameExtractor.extract`: the dictionary comprehension over the records, in order. */
  function PedigreeNames(pedigrees: seq<PedigreeRecord>): map<Name, seq<Signal>>
  {
    FromPairs(PedigreeNamePairs(pedigrees))
  }

  /** One more record either leaves the dictionary alone or writes its name's entry. */
  lemma PedigreeNamesStep(pedigrees: seq<PedigreeRecord>)
    requires pedigrees != []
    ensures var p := pedigrees[|pedigrees| - 1];
      var before := PedigreeNames(pedigrees[..|pedigrees| - 1]);
      PedigreeNames(pedigrees)
        == if p.name.Some? then before[Name(p.name.value, Pedigree) := [Signal(PedigreeName, Str(p.name.value))]] else before
  {
    var p := pedigrees[|pedigrees| - 1];
    var init := PedigreeNamePairs(pedigrees[..|pedigrees| - 1]);
    if p.name.Some? {
      FromPairsSnoc(init, Name(p.name.value, Pedigree), [Signal(PedigreeName, Str(p.name.value))]);
    } else {
      assert PedigreeNamePairs(pedigrees) == init + [] == init;
    }
  }

  /**
   * Every record with a `name` key, and no other, names a breed in the Pedigree
   * namespace (an empty name included), and that name carries the one
   * PEDIGREE_NAME signal whose value is the name itself.
   */
  lemma {:induction false} PedigreeNamesOfNamedRecords(pedigrees: seq<PedigreeRecord>)
    ensures forall k :: k in PedigreeNames(pedigrees) <==>
      k.namespace == Pedigree && exists i :: 0 <= i < |pedigrees| && pedigrees[i].name == Some(k.name)
    ensures forall k :: k in PedigreeNames(pedigrees) ==>
      PedigreeNames(pedigrees)[k] == [Signal(PedigreeName, Str(k.name))]
    decreases |pedigrees|
  {
    if pedigrees != [] {
      var init := pedigrees[..|pedigrees| - 1];
      PedigreeNamesOfNamedRecords(init);
      PedigreeNamesStep(pedigrees);
      assert forall i :: 0 <= i < |init| ==> init[i] == pedigrees[i];
      forall k: Name
        ensures k in PedigreeNames(pedigrees) <==>
          k.namespace == Pedigree && exists i :: 0 <= i < |pedigrees| && pedigrees[i].name == Some(k.name)
      {
        if k.namespace == Pedigree && pedigrees[|pedigrees| - 1].name == Some(k.name) {
          assert k == Name(pedigrees[|pedigrees| - 1].name.value, Pedigree);
        }
      }
    }
  }

  /** The entry the loop of `EuropotatoPedigreeNameExtractor.extract` writes for one item of the name map, if any. */
  function Pick(item: (string, string), pedigrees: map<string, PedigreeRecord>): Option<(Name, seq<Signal>)>
  {
    var (filename, europotatoName) := item;
    if europotatoName == [] then None
    else if filename + ".json" !in pedigrees then None
    else
      var pedigree := pedigrees[filename + ".json"];
      if pedigree.name.None? || pedigree.name.value == [] then None
      else Some((Name(pedigree.name.value, Pedigree), [Signal(EuropotatoName, Str(europotatoName))]))
  }

  /** The assignments the loop makes over the first items of the name map, in order. */
  function EuropotatoNamePairs(nameMap: seq<(string, string)>, pedigrees: map<string, PedigreeRecord>): seq<(Name, seq<Signal>)>
    decreases |nameMap|
  {
    if nameMap == [] then []
    else
      var pick := Pick(nameMap[|nameMap| - 1], pedigrees);
      EuropotatoNamePairs(nameMap[..|nameMap| - 1], pedigrees) + if pick.Some? then [pick.value] else []
  }

  /** The dictionary `EuropotatoPedigreeNameExtractor.extract` returns. */
  function EuropotatoNames(nameMap: seq<(string, string)>, pedigrees: map<string, PedigreeRecord>): map<Name, seq<Signal>>
  {
    FromPairs(EuropotatoNamePairs(nameMap, pedigrees))
  }

  /**
   * An item of the name map names the breed of the record stored under its file
   * name plus ".json": the item's Europotato name is not empty and that record
   * has a non-empty name.
   */
  predicate Links(item: (string, string), pedigrees: map<string, PedigreeRecord>, pedigreeName: string)
  {
    item.1 != [] && item.0 + ".json" in pedigrees && pedigrees[item.0 + ".json"].name == Some(pedigreeName)
      && pedigreeName != []
  }

  /** The entry for one item is written under `n` exactly when the item links to a record named `n`. */
  lemma PickLinks(item: (string, string), pedigrees: map<string, PedigreeRecord>, n: string)
    ensures (Pick(item, pedigrees).Some? && Pick(item, pedigrees).value.0 == Name(n, Pedigree)) <==> Links(item, pedigrees, n)
    ensures Pick(item, pedigrees).Some? ==>
      Pick(item, pedigrees).value.0.namespace == Pedigree && Pick(item, pedigrees).value.1 == [Signal(EuropotatoName, Str(item.1))]
  {
  }

  /** One more item of the name map either leaves the dictionary alone or writes its entry. */
  lemma EuropotatoNamesStep(nameMap: seq<(string, string)>, pedigrees: map<string, PedigreeRecord>)
    requires nameMap != []
    ensures var pick := Pick(nameMap[|nameMap| - 1], pedigrees);
      var before := EuropotatoNames(nameMap[..|nameMap| - 1], pedigrees);
      EuropotatoNames(nameMap, pedigrees) == if pick.Some? then before[pick.value.0 := pick.value.1] else before
  {
    var pick := Pick(nameMap[|nameMap| - 1], pedigrees);
    var init := EuropotatoNamePairs(nameMap[..|nameMap| - 1], pedigrees);
    if pick.Some? {
      FromPairsSnoc(init, pick.value.0, pick.value.1);
    } else {
      assert EuropotatoNamePairs(nameMap, pedigrees) == init + [] == init;
    }
  }

  /**
   * The breeds given a Europotato name are exactly the Pedigree-namespace names
   * of records that some item of the name map links to: items with an empty
   * Europotato name, file names with no record, and records with a missing or
   * empty name contribute nothing.
   */
  lemma {:induction false} EuropotatoNamesOfLinks(nameMap: seq<(string, string)>, pedigrees: map<string, PedigreeRecord>)
    ensures forall k :: k in EuropotatoNames(nameMap, pedigrees) <==>
      k.namespace == Pedigree && exists i :: 0 <= i < |nameMap| && Links(nameMap[i], pedigrees, k.name)
    decreases |nameMap|
  {
    if nameMap != [] {
      var init := nameMap[..|nameMap| - 1];
      var last := nameMap[|nameMap| - 1];
      EuropotatoNamesOfLinks(init, pedigrees);
      EuropotatoNamesStep(nameMap, pedigrees);
      assert forall i :: 0 <= i < |init| ==> init[i] == nameMap[i];
      forall k
        ensures k in EuropotatoNames(nameMap, pedigrees) <==>
          k.namespace == Pedigree && exists i :: 0 <= i < |nameMap| && Links(nameMap[i], pedigrees, k.name)
      {
        PickLinks(last, pedigrees, k.name);
        if k.namespace == Pedigree && Links(last, pedigrees, k.name) {
          assert Links(nameMap[|nameMap| - 1], pedigrees, k.name);
        }
      }
    }
  }

  /**
   * A breed takes the Europotato name of the last item of the name map that
   * links to it: later items overwrite earlier ones.
   */
  lemma {:induction false} EuropotatoNameOfLastLink(nameMap: seq<(string, string)>, pedigrees: map<string, PedigreeRecord>, i: nat, n: string)
    requires i < |nameMap| && Links(nameMap[i], pedigrees, n)
    requires forall j :: i < j < |nameMap| ==> !Links(nameMap[j], pedigrees, n)
    ensures Name(n, Pedigree) in EuropotatoNames(nameMap, pedigrees)
    ensures EuropotatoNames(nameMap, pedigrees)[Name(n, Pedigree)] == [Signal(EuropotatoName, Str(nameMap[i].1))]
    decreases |nameMap|
  {
    var init := nameMap[..|nameMap| - 1];
    var last := nameMap[|nameMap| - 1];
    EuropotatoNamesStep(nameMap, pedigrees);
    PickLinks(last, pedigrees, n);
    if i < |nameMap| - 1 {
      assert forall j :: i < j < |init| ==> init[j] == nameMap[j];
      EuropotatoNameOfLastLink(init, pedigrees, i, n);
    }
  }

  /** `EuropotatoPedigreeNameExtractor.extract`: the loop over the name map's items, in order. */
  method ExtractEuropotatoNames(nameMap: seq<(string, string)>, pedigrees: map<string, PedigreeRecord>)
    returns (r: map<Name, seq<Signal>>)
    ensures r == EuropotatoNames(nameMap, pedigrees)
  {
    r := map[];
    for i := 0 to |nameMap|
      invariant r == EuropotatoNames(nameMap[..i], pedigrees)
    {
      assert nameMap[..i + 1][..i] == nameMap[..i];
      EuropotatoNamesStep(nameMap[..i + 1], pedigrees);
      var (filename, europotatoName) := nameMap[i];
      if europotatoName == [] {
        continue;
      }
      if filename + ".json" !in pedigrees {
        continue;
      }
      var pedigree := pedigrees[filename + ".json"];
      if pedigree.name.None? || pedigree.name.value == [] {
        continue;
      }
      r := r[Name(pedigree.name.value, Pedigree) := [Signal(EuropotatoName, Str(europotatoName))]];
    }
    assert nameMap[..|nameMap|] == nameMap;
  }
}
