/**
 * The vocabulary shared by the joiner's extractors: names qualified by the
 * database they come from, the signals recorded about them, and the crawled
 * pedigree records they read.
 */
module Extractor {
  import opened Wrappers

  datatype Namespace = Europotato | Pedigree

  /** A breed's name as one database spells it. */
  datatype Name = Name(name: string, namespace: Namespace)

  datatype SignalName = ParentOf | ChildOf | YearOfIntroduction | PedigreeName | EuropotatoName

  /**
   * A JSON scalar as it appears in a crawled record. `Other` stands for floats,
   * `null` and containers, which the extractors never look inside.
   */
  datatype Value = Str(s: string) | Int(i: int) | Bool(b: bool) | Other

  /** `isinstance(v, int)`, which holds for booleans too. */
  predicate IsInt(v: Value)
  {
    v.Int? || v.Bool?
  }

  /** One fact about a named breed. */
  datatype Signal = Signal(name: SignalName, value: Value)

  /**
   * One entry of a pedigree's `parentage` list: a box of the pedigree image map.
   * A field is `None` when its key is absent.
   */
  datatype Entry = Entry(name: Option<string>, coordinates: Option<seq<int>>, year: Option<Value>)

  /** A crawled pedigree record; a field is `None` when its key is absent. */
  datatype PedigreeRecord = PedigreeRecord(name: Option<string>, parentage: Option<seq<Entry>>)
}
