/** The player configuration types and the static catalog of decision
    sources offered for each side. */
module Models {
  import opened Wrappers

  /** `LLMProvider`: a closed union of provider names. */
  datatype Provider = OpenAI | Google | Anthropic | Mistral | Human

  /** `MultiModelLLM`: one catalog entry. */
  datatype MultiModelLlm = MultiModelLlm(provider: Provider, model: string)

  /** The `color` of a player and of the side to move. */
  datatype Side = White | Black

  /** `IPlayer`: the decision source and credential configured for one side. */
  datatype Player = Player(color: Side, llm: MultiModelLlm, apiKey: string)

  /** The model name that marks the human decision source. */
  const HumanModel := "human"

  /** `llms`: the catalog, in the order the settings form lists it. */
  const Catalog: seq<MultiModelLlm> := [
    MultiModelLlm(OpenAI, "gpt-4o"),
    MultiModelLlm(OpenAI, "gpt-4o-mini"),
    MultiModelLlm(OpenAI, "gpt-4-turbo"),
    MultiModelLlm(OpenAI, "gpt-3.5-turbo"),
    MultiModelLlm(Mistral, "pixtral-12b-2409"),
    MultiModelLlm(Anthropic, "claude-3-5-sonnet-20240620"),
    MultiModelLlm(Google, "gemini-1.5-flash"),
    MultiModelLlm(Google, "gemini-1.5-pro"),
    MultiModelLlm(Human, HumanModel)
  ]

  function SideName(side: Side): string
  {
    match side
    case White => "White"
    case Black => "Black"
  }

  function Opponent(side: Side): (other: Side)
    ensures other != side
  {
    match side
    case White => Black
    case Black => White
  }

  /** No two entries share a model name. */
  ghost predicate DistinctModels(entries: seq<MultiModelLlm>)
  {
    forall i, j :: 0 <= i < j < |entries| ==> entries[i].model != entries[j].model
  }

  /** `entries.find((llm) => llm.model === name)`: the first entry with that
      model name, or nothing (an absent form value matches nothing). */
  function FindModel(entries: seq<MultiModelLlm>, name: Option<string>): (r: Option<MultiModelLlm>)
    ensures r.Some? ==> r.value in entries && name == Some(r.value.model)
    ensures r.None? ==> forall i :: 0 <= i < |entries| ==> name != Some(entries[i].model)
  {
    if entries == [] then None
    else if name == Some(entries[0].model) then Some(entries[0])
    else FindModel(entries[1..], name)
  }

  /** With distinct model names, the lookup by model name returns exactly the
      entry that carries that name. */
  lemma FindModelUnique(entries: seq<MultiModelLlm>, name: string, e: MultiModelLlm)
    requires DistinctModels(entries)
    ensures FindModel(entries, Some(name)) == Some(e) <==> e in entries && e.model == name
  {
    if e in entries && e.model == name {
      var r := FindModel(entries, Some(name));
      var i :| 0 <= i < |entries| && entries[i] == e;
      assert r.Some?;
      var j :| 0 <= j < |entries| && entries[j] == r.value;
      if i < j {
        assert entries[i].model != entries[j].model;
      } else if j < i {
        assert entries[j].model != entries[i].model;
      }
    }
  }

  /** With distinct model names, the lookup finds an entry exactly when some
      entry carries the name, and then the one entry that carries it. */
  lemma FindModelExact(entries: seq<MultiModelLlm>, name: Option<string>)
    requires DistinctModels(entries)
    ensures var r := FindModel(entries, name);
      && (r.Some? <==> name.Some? && exists i :: 0 <= i < |entries| && entries[i].model == name.value)
      && (r.Some? ==> forall e :: e in entries && e.model == name.value <==> e == r.value)
  {
    var r := FindModel(entries, name);
    if r.Some? {
      var i :| 0 <= i < |entries| && entries[i] == r.value;
      forall e
        ensures e in entries && e.model == name.value <==> e == r.value
      {
        FindModelUnique(entries, name.value, e);
      }
    }
  }

  /** The catalog holds nine entries, the first of which (the default for
      both sides) is OpenAI's gpt-4o, and its model names are distinct. */
  lemma CatalogShape()
    ensures |Catalog| == 9
    ensures Catalog[0] == MultiModelLlm(OpenAI, "gpt-4o")
    ensures DistinctModels(Catalog)
  {
    forall i, j | 0 <= i < j < |Catalog|
      ensures Catalog[i].model != Catalog[j].model
    {
      var a, b := Catalog[i].model, Catalog[j].model;
      assert a[|a| - 1] != b[|b| - 1] || |a| != |b|;
    }
  }

  /** Exactly one entry, the last, is the human one, and it is the only
      entry whose provider is Human. */
  lemma CatalogHumanEntry()
    ensures forall i :: 0 <= i < |Catalog| ==> (Catalog[i].model == HumanModel <==> i == 8)
    ensures forall i :: 0 <= i < |Catalog| ==> (Catalog[i].provider == Human <==> i == 8)
  {
    forall i | 0 <= i < 8
      ensures Catalog[i].model != HumanModel
    {
      assert Catalog[i].model[0] != 'h';
    }
  }
}
