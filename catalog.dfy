/** The nutrition catalog: the lower-cased lookup map built at start-up from the
    dataset, and the ordered table that meal aggregation searches. */
module Catalog {
  import opened Wrappers
  import opened Strings

  /** One dataset record `{name, calories, Fats, Carbs, Proteins}`, its numbers
      already converted with `float`. */
  datatype NutritionRecord = NutritionRecord(
    name: string, calories: real, fats: real, carbs: real, proteins: real)

  /** The lookup key of a record: its lower-cased name. */
  function Key(r: NutritionRecord): string
  {
    Lower(r.name)
  }

  /** The dict comprehension `{item['name'].lower(): item for item in records}`:
      every record's key is present, and each key holds the LAST record with
      that key, because later insertions overwrite earlier ones. */
  function CatalogOf(records: seq<NutritionRecord>): (m: map<string, NutritionRecord>)
    ensures m.Keys == set i | 0 <= i < |records| :: Key(records[i])
    ensures forall i :: 0 <= i < |records| ==>
              (forall j :: i < j < |records| ==> Key(records[j]) != Key(records[i])) ==>
                m[Key(records[i])] == records[i]
    decreases |records|
  {
    if records == [] then map[]
    else
      var init := records[..|records| - 1];
      var last := records[|records| - 1];
      var m := CatalogOf(init);
      assert forall i :: 0 <= i < |init| ==> init[i] == records[i];
      m[Key(last) := last]
  }

  /** What opening and parsing the dataset file produced: no file at all; a
      file that cannot be opened, is not JSON, or has a record without a
      string `name`; or the list of records. */
  datatype DatasetFile =
    | FileNotFound
    | DatasetUnreadable
    | FileContents(records: seq<NutritionRecord>)

  /** Start-up loading. Only a missing file is caught, and it degrades to an
      empty catalog; any other failure escapes the module's import, which is
      `None` here: the application does not start. */
  function LoadCatalog(file: DatasetFile): (r: Option<map<string, NutritionRecord>>)
    ensures file.FileNotFound? ==> r == Some(map[])
    ensures r.None? <==> file.DatasetUnreadable?
    ensures file.FileContents? ==> r == Some(CatalogOf(file.records))
  {
    match file
    case FileNotFound => Some(map[])
    case DatasetUnreadable => None
    case FileContents(records) => Some(CatalogOf(records))
  }

  /** `next((x for x in table if x['name'].lower() == item.lower()), None)`,
      as the index of the entry found: the first entry whose key equals the
      lower-cased label, or `None` when no entry matches. */
  function FirstMatch(table: seq<NutritionRecord>, item: string): (r: Option<nat>)
    ensures r.Some? ==> r.value < |table| && Key(table[r.value]) == Lower(item)
    ensures r.Some? ==> forall j :: 0 <= j < r.value ==> Key(table[j]) != Lower(item)
    ensures r.None? ==> forall j :: 0 <= j < |table| ==> Key(table[j]) != Lower(item)
    decreases |table|
  {
    if table == [] then None
    else if Key(table[0]) == Lower(item) then Some(0)
    else
      match FirstMatch(table[1..], item)
      case None => None
      case Some(i) => Some(i + 1)
  }

  /** No two records share a lower-cased name. */
  predicate DistinctKeys(records: seq<NutritionRecord>)
  {
    forall i, j :: 0 <= i < j < |records| ==> Key(records[i]) != Key(records[j])
  }

  /** When keys are distinct, searching the table and looking up the dict agree. */
  lemma TableAgreesWithCatalog(records: seq<NutritionRecord>, item: string)
    requires DistinctKeys(records)
    ensures FirstMatch(records, item).Some? <==> Lower(item) in CatalogOf(records)
    ensures FirstMatch(records, item).Some? ==>
              CatalogOf(records)[Lower(item)] == records[FirstMatch(records, item).value]
  {
    var m := CatalogOf(records);
    if Lower(item) in m {
      var i :| 0 <= i < |records| && Key(records[i]) == Lower(item);
      assert FirstMatch(records, item).Some?;
    }
  }

  /** Two records whose names differ only in case. */
  const RepeatedName: seq<NutritionRecord> := [
    NutritionRecord("Idli", 58.0, 0.4, 12.0, 2.0),
    NutritionRecord("idli", 39.0, 0.2, 8.0, 1.6)
  ]

  /** With a repeated name the two disagree: the table search finds the first
      record, the dict keeps the last. */
  lemma RepeatedNameDiverges()
    ensures FirstMatch(RepeatedName, "IDLI") == Some(0)
    ensures "idli" in CatalogOf(RepeatedName) && CatalogOf(RepeatedName)["idli"] == RepeatedName[1]
  {
    assert Lower("IDLI") == "idli";
    assert Key(RepeatedName[0]) == "idli";
    assert Key(RepeatedName[1]) == "idli";
  }

  /** Three entries of the static table the meal view searches. */
  const SampleTable: seq<NutritionRecord> := [
    NutritionRecord("appam", 180.0, 4.12, 30.47, 4.6),
    NutritionRecord("dosa", 212.0, 2.07, 42.48, 5.03),
    NutritionRecord("veg briyani", 130.0, 2.53, 23.33, 3.16)
  ]
}
