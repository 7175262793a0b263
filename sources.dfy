/** The process-wide source registry of config/sources.js and the fixed
    vocabularies declared by the schema files. */
module Sources {
  import opened Wrappers

  /** One configured source: its config key, the model (collection) that
      stores its articles, and its display name. */
  datatype SourceEntry = SourceEntry(key: string, modelName: string, sourceName: string)

  /** The five entries, in the registry's iteration order. */
  const SourceConfig: seq<SourceEntry> := [
    SourceEntry("hindu", "TheHindu", "The Hindu"),
    SourceEntry("hindustan-times", "HindustanTimes", "Hindustan Times"),
    SourceEntry("toi", "TimesOfIndia", "Times of India"),
    SourceEntry("ie", "IndianExpress", "Indian Express"),
    SourceEntry("dna", "DNA", "DNA")
  ]

  /** The `articleSourceModel` enum shared by the bookmark and question schemas. */
  const ModelNames: seq<string> := ["TheHindu", "DNA", "HindustanTimes", "IndianExpress", "TimesOfIndia"]

  /** The `categories` / `currentAffairsCategory` enum of the article schemas. */
  const SchemaCategories: seq<string> := [
    "Polity & Governance", "Economy", "Environment & Ecology", "Science & Technology",
    "International Relations", "Art & Culture", "History", "Social Issues",
    "Defence & Security", "Awards, Persons & Places in News", "National", "Sports",
    "Miscellaneous", "General"
  ]

  /** `sourceConfig[key]` together with the `.model` truthiness test the
      routes apply: only the five own keys yield an entry. */
  function LookupSource(key: string): (r: Option<SourceEntry>)
    ensures r.Some? <==> exists i :: 0 <= i < |SourceConfig| && SourceConfig[i].key == key
    ensures r.Some? ==> r.value in SourceConfig && r.value.key == key
  {
    FindByKey(SourceConfig, key)
  }

  function FindByKey(entries: seq<SourceEntry>, key: string): (r: Option<SourceEntry>)
    ensures r.Some? <==> exists i :: 0 <= i < |entries| && entries[i].key == key
    ensures r.Some? ==> r.value in entries && r.value.key == key
  {
    if entries == [] then None
    else if entries[0].key == key then Some(entries[0])
    else
      var r := FindByKey(entries[1..], key);
      assert forall i :: 1 <= i < |entries| ==> entries[i] == entries[1..][i - 1];
      r
  }

  /** `Object.values(sourceConfig).find(c => c.modelName === name)`. */
  function FindByModelName(entries: seq<SourceEntry>, name: string): (r: Option<SourceEntry>)
    ensures r.Some? <==> exists i :: 0 <= i < |entries| && entries[i].modelName == name
    ensures r.Some? ==> r.value in entries && r.value.modelName == name
  {
    if entries == [] then None
    else if entries[0].modelName == name then Some(entries[0])
    else
      var r := FindByModelName(entries[1..], name);
      assert forall i :: 1 <= i < |entries| ==> entries[i] == entries[1..][i - 1];
      r
  }

  /** Every name the bookmark enum admits has a registry entry, so the
      "no matching config entry" branch of the bookmark route never fires. */
  lemma EveryModelNameConfigured(name: string)
    requires name in ModelNames
    ensures FindByModelName(SourceConfig, name).Some?
  {
    var i :| 0 <= i < |ModelNames| && ModelNames[i] == name;
    var j := [0, 4, 1, 3, 2][i];
    assert SourceConfig[j].modelName == name;
  }

  /** Each entry's model name is in the enum and the keys and model names are distinct. */
  lemma ConfigWellFormed()
    ensures forall i :: 0 <= i < |SourceConfig| ==> SourceConfig[i].modelName in ModelNames
    ensures forall i, j :: 0 <= i < j < |SourceConfig| ==> SourceConfig[i].key != SourceConfig[j].key
    ensures forall i, j :: 0 <= i < j < |SourceConfig| ==> SourceConfig[i].modelName != SourceConfig[j].modelName
  {
  }
}
