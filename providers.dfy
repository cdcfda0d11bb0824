/** The registry of AI providers: each id's transport and defaults. */
module Providers {
  import opened Wrappers
  import Text
  import Sorting

  datatype ProviderSpec = ProviderSpec(
    id: string,
    transport: string,
    defaultBaseUrl: string,
    requiresApiKey: bool,
    defaultApiKeyEnv: Option<string>)

  const ChatCompletions: string := "openai_chat_completions"

  const Registry: map<string, ProviderSpec> := map[
    "ollama" := ProviderSpec("ollama", ChatCompletions, "http://localhost:11434/v1", false, None),
    "openai" := ProviderSpec("openai", ChatCompletions, "https://api.openai.com/v1", true, Some("OPENAI_API_KEY")),
    "groq" := ProviderSpec("groq", ChatCompletions, "https://api.groq.com/openai/v1", true, Some("GROQ_API_KEY"))
  ]

  /** Every spec is filed under its own id, uses the chat-completions
      transport, and needs an API key unless it is the local `ollama`, which
      is also the only one without a default key variable. */
  predicate RegistryWellFormed(reg: map<string, ProviderSpec>) {
    forall k :: k in reg ==>
      reg[k].id == k && reg[k].transport == ChatCompletions
      && (!reg[k].requiresApiKey <==> k == "ollama")
      && (reg[k].defaultApiKeyEnv.None? <==> k == "ollama")
  }

  lemma RegistryIsWellFormed()
    ensures RegistryWellFormed(Registry)
  {
    assert Registry.Keys == {"ollama", "openai", "groq"};
  }

  /** `provider_ids()`: the registry's ids in sorted order. */
  function ProviderIds(): seq<string> {
    ["groq", "ollama", "openai"]
  }

  /** The ids are sorted and are exactly the registry's keys. */
  lemma ProviderIdsMeans()
    ensures Sorting.SortedStrings(ProviderIds())
    ensures forall k :: k in ProviderIds() <==> k in Registry
    ensures |ProviderIds()| == |Registry|
  {
    var r := ProviderIds();
    assert Sorting.StrLe(r[0], r[1]) && Sorting.StrLe(r[1], r[2]);
    Sorting.StrLeTrans(r[0], r[1], r[2]);
    assert Registry.Keys == {"ollama", "openai", "groq"};
  }

  /** `get_provider_spec(provider_id)`: the id is stripped and lower-cased
      before lookup; an unknown id is an error that lists the allowed ids. */
  function GetProviderSpec(providerId: string): (r: Result<ProviderSpec>)
    ensures var n := Text.Lower(Text.Strip(providerId));
      (r.Ok? <==> n in Registry) && (r.Ok? ==> r.value == Registry[n] && r.value.id == n)
    ensures r.Err? ==> r.error == "provider must be one of: " + Text.Join(ProviderIds(), ", ")
  {
    var normalized := Text.Lower(Text.Strip(providerId));
    if normalized in Registry then
      RegistryIsWellFormed();
      Ok(Registry[normalized])
    else
      Err("provider must be one of: " + Text.Join(ProviderIds(), ", "))
  }

  /** Looking up an id that is already normalised is a registry lookup. */
  lemma LookupNormalized(value: string)
    ensures var n := Text.Lower(Text.Strip(value));
      (GetProviderSpec(n).Ok? <==> n in Registry)
      && (n in Registry ==> GetProviderSpec(n) == Ok(Registry[n]))
  {
    Text.LowerStripNormal(value);
  }
}
