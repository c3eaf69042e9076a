/**
 * The year each variety was introduced, from the entries of the pedigree
 * records' `parentage` lists: every entry with a name and an integer year sets
 * the year of that name, a later entry overriding an earlier one, and each name
 * then carries that one year.
 */
module Introduction {
  import opened Wrappers
  import opened Extractor
  import opened Dicts

  /** An entry that sets a year: it has a name and a year, and the year is an `int` (or a `bool`, which is one). */
  predicate Qualifies(e: Entry)
  {
    e.name.Some? && e.year.Some? && IsInt(e.year.value)
  }

  /** The assignments `years[name] = year` the inner loop makes over `entries`, in order. */
  function EntryYears(entries: seq<Entry>): seq<(string, Value)>
    decreases |entries|
  {
    if entries == [] then []
    else
      var e := entries[|entries| - 1];
      EntryYears(entries[..|entries| - 1]) + if Qualifies(e) then [(e.name.value, e.year.value)] else []
  }

  /** The inner loop assigns exactly the names and years of the qualifying entries. */
  lemma {:induction false} EntryYearsMembers(entries: seq<Entry>)
    ensures forall x :: x in EntryYears(entries) <==>
      exists j :: 0 <= j < |entries| && Qualifies(entries[j]) && x == (entries[j].name.value, entries[j].year.value)
    decreases |entries|
  {
    if entries != [] {
      var init := entries[..|entries| - 1];
      EntryYearsMembers(init);
      assert forall j :: 0 <= j < |init| ==> init[j] == entries[j];
    }
  }

  /** A record's assignments: none without a `parentage` key. */
  function RecordYears(p: PedigreeRecord): seq<(string, Value)>
  {
    if p.parentage.None? then [] else EntryYears(p.parentage.value)
  }

  /** The assignments both loops make over all records, in order. */
  function AllYears(pedigrees: seq<PedigreeRecord>): seq<(string, Value)>
    decreases |pedigrees|
  {
    if pedigrees == [] then []
    else AllYears(pedigrees[..|pedigrees| - 1]) + RecordYears(pedigrees[|pedigrees| - 1])
  }

  lemma {:induction false} AllYearsMembers(pedigrees: seq<PedigreeRecord>)
    ensures forall x :: x in AllYears(pedigrees) <==> exists i :: 0 <= i < |pedigrees| && x in RecordYears(pedigrees[i])
    decreases |pedigrees|
  {
    if pedigrees != [] {
      var init := pedigrees[..|pedigrees| - 1];
      AllYearsMembers(init);
      assert forall i :: 0 <= i < |init| ==> init[i] == pedigrees[i];
    }
  }

  /** `years` after both loops. */
  function Years(pedigrees: seq<PedigreeRecord>): map<string, Value>
  {
    FromPairs(AllYears(pedigrees))
  }

  /** The names given a year are exactly the names of qualifying entries, and every year is an integer. */
  lemma YearsOfQualifying(pedigrees: seq<PedigreeRecord>)
    ensures forall n :: n in Years(pedigrees) <==>
      exists i, j :: 0 <= i < |pedigrees| && pedigrees[i].parentage.Some? && 0 <= j < |pedigrees[i].parentage.value|
        && Qualifies(pedigrees[i].parentage.value[j]) && pedigrees[i].parentage.value[j].name == Some(n)
    ensures forall n :: n in Years(pedigrees) ==> IsInt(Years(pedigrees)[n])
  {
    var pairs := AllYears(pedigrees);
    AllYearsMembers(pedigrees);
    forall i | 0 <= i < |pedigrees| && pedigrees[i].parentage.Some? {
      EntryYearsMembers(pedigrees[i].parentage.value);
    }
    forall n
      ensures n in Years(pedigrees) <==>
        exists i, j :: 0 <= i < |pedigrees| && pedigrees[i].parentage.Some? && 0 <= j < |pedigrees[i].parentage.value|
          && Qualifies(pedigrees[i].parentage.value[j]) && pedigrees[i].parentage.value[j].name == Some(n)
    {
      if n in Years(pedigrees) {
        var k :| 0 <= k < |pairs| && pairs[k].0 == n;
        assert pairs[k] in pairs;
        var i :| 0 <= i < |pedigrees| && pairs[k] in RecordYears(pedigrees[i]);
      }
      if exists i, j :: 0 <= i < |pedigrees| && pedigrees[i].parentage.Some? && 0 <= j < |pedigrees[i].parentage.value|
          && Qualifies(pedigrees[i].parentage.value[j]) && pedigrees[i].parentage.value[j].name == Some(n) {
        var i, j :| 0 <= i < |pedigrees| && pedigrees[i].parentage.Some? && 0 <= j < |pedigrees[i].parentage.value|
          && Qualifies(pedigrees[i].parentage.value[j]) && pedigrees[i].parentage.value[j].name == Some(n);
        var e := pedigrees[i].parentage.value[j];
        assert (n, e.year.value) in RecordYears(pedigrees[i]);
        assert (n, e.year.value) in pairs;
        var k :| 0 <= k < |pairs| && pairs[k] == (n, e.year.value);
      }
    }
    YearsAreInts(pairs);
  }

  /** A name the last record assigns gets the year that record gives it, whatever earlier records said. */
  lemma LaterRecordWins(pedigrees: seq<PedigreeRecord>, n: string)
    requires pedigrees != []
    requires n in FromPairs(RecordYears(pedigrees[|pedigrees| - 1]))
    ensures n in Years(pedigrees) && Years(pedigrees)[n] == FromPairs(RecordYears(pedigrees[|pedigrees| - 1]))[n]
  {
    var earlier := AllYears(pedigrees[..|pedigrees| - 1]);
    var last := RecordYears(pedigrees[|pedigrees| - 1]);
    assert AllYears(pedigrees) == earlier + last;
    FromPairsConcat(earlier, last, n);
  }

  lemma {:induction false} YearsAreInts(pairs: seq<(string, Value)>)
    requires forall x :: x in pairs ==> IsInt(x.1)
    ensures forall n :: n in FromPairs(pairs) ==> IsInt(FromPairs(pairs)[n])
    decreases |pairs|
  {
    if pairs != [] {
      var init := pairs[..|pairs| - 1];
      assert forall x :: x in init ==> x in pairs;
      YearsAreInts(init);
      assert pairs[|pairs| - 1] in pairs;
    }
  }

  /** The one YEAR_OF_INTRODUCTION signal of each name given a year. */
  function Signals(years: map<string, Value>): (r: map<Name, seq<Signal>>)
    ensures forall k :: k in r <==> k.namespace == Pedigree && k.name in years
    ensures forall k :: k in r ==> r[k] == [Signal(YearOfIntroduction, years[k.name])]
  {
    map n | n in years :: Name(n, Pedigree) := [Signal(YearOfIntroduction, years[n])]
  }

  /**
   * `IntroductionExtractor.extract`: each name of a qualifying entry, in the
   * Pedigree namespace, maps to exactly one YEAR_OF_INTRODUCTION signal whose
   * value is the year of the last qualifying entry with that name.
   */
  method Extract(pedigrees: seq<PedigreeRecord>) returns (r: map<Name, seq<Signal>>)
    ensures forall k :: k in r <==> k.namespace == Pedigree && k.name in Years(pedigrees)
    ensures forall k :: k in r ==> r[k] == [Signal(YearOfIntroduction, Years(pedigrees)[k.name])]
  {
    var years: map<string, Value> := map[];
    for i := 0 to |pedigrees|
      invariant years == FromPairs(AllYears(pedigrees[..i]))
    {
      assert pedigrees[..i + 1][..i] == pedigrees[..i];
      var p := pedigrees[i];
      if p.parentage.None? {
        assert AllYears(pedigrees[..i + 1]) == AllYears(pedigrees[..i]) + [] == AllYears(pedigrees[..i]);
        continue;
      }
      var entries := p.parentage.value;
      assert AllYears(pedigrees[..i]) + EntryYears(entries[..0]) == AllYears(pedigrees[..i]);
      for j := 0 to |entries|
        invariant years == FromPairs(AllYears(pedigrees[..i]) + EntryYears(entries[..j]))
      {
        assert entries[..j + 1][..j] == entries[..j];
        var e := entries[j];
        if e.year.None? || e.name.None? || !IsInt(e.year.value) {
          assert EntryYears(entries[..j + 1]) == EntryYears(entries[..j]) + [] == EntryYears(entries[..j]);
          continue;
        }
        FromPairsSnoc(AllYears(pedigrees[..i]) + EntryYears(entries[..j]), e.name.value, e.year.value);
        assert AllYears(pedigrees[..i]) + EntryYears(entries[..j + 1])
          == AllYears(pedigrees[..i]) + EntryYears(entries[..j]) + [(e.name.value, e.year.value)];
        years := years[e.name.value := e.year.value];
      }
      assert entries[..|entries|] == entries;
      assert AllYears(pedigrees[..i + 1]) == AllYears(pedigrees[..i]) + EntryYears(entries);
    }
    assert pedigrees[..|pedigrees|] == pedigrees;
    r := Signals(years);
  }
}
