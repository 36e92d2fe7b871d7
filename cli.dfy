/**
 * The command-line front end (main.py): the API-key report, the roster
 * assembly with its early exit on an empty roster, and the 300-character
 * preview of each initial opinion.
 */
module Cli {

  import opened Models
  import opened Roster

  /** The five keys read from the environment; "" where unset. */
  datatype ApiKeys = ApiKeys(huggingFace: string, groq: string, google: string, together: string, cohere: string)

  /** The services `check_api_keys` reports on, in the order it fills its dict. */
  const Services: seq<string> := ["HuggingFace", "Groq", "Google Gemini", "Together AI", "Cohere"]

  /** Where each service hands out a free key. */
  const KeyPages: seq<string> := [
    "https://huggingface.co/settings/tokens",
    "https://console.groq.com/keys",
    "https://makersuite.google.com/app/apikey",
    "https://api.together.xyz/settings/api-keys",
    "https://dashboard.cohere.com/api-keys"
  ]

  const Available: string := "✓"

  function KeyAt(keys: ApiKeys, i: nat): string
    requires i < 5
  {
    [keys.huggingFace, keys.groq, keys.google, keys.together, keys.cohere][i]
  }

  function MissingHint(page: string): string {
    "✗ (Get free key at: " + page + ")"
  }

  /**
   * `check_api_keys()`: one entry per service, in order; the tick exactly
   * when that service's key is non-empty, otherwise the hint naming where to
   * get one.
   */
  method CheckApiKeys(keys: ApiKeys) returns (status: seq<(string, string)>)
    ensures |status| == 5
    ensures forall i :: 0 <= i < 5 ==> status[i].0 == Services[i]
    ensures forall i :: 0 <= i < 5 ==> (status[i].1 == Available <==> KeyAt(keys, i) != "")
    ensures forall i :: 0 <= i < 5 && KeyAt(keys, i) == "" ==> status[i].1 == MissingHint(KeyPages[i])
  {
    status := [];
    status := status + [("HuggingFace", KeyStatus(keys.huggingFace, "https://huggingface.co/settings/tokens"))];
    status := status + [("Groq", KeyStatus(keys.groq, "https://console.groq.com/keys"))];
    status := status + [("Google Gemini", KeyStatus(keys.google, "https://makersuite.google.com/app/apikey"))];
    status := status + [("Together AI", KeyStatus(keys.together, "https://api.together.xyz/settings/api-keys"))];
    status := status + [("Cohere", KeyStatus(keys.cohere, "https://dashboard.cohere.com/api-keys"))];
  }

  /** One `if KEY: available[s] = "✓" else: available[s] = "✗ (...)"` step. */
  function KeyStatus(key: string, page: string): (s: string)
    ensures s == Available <==> key != ""
    ensures key == "" ==> s == MissingHint(page)
  {
    if key != "" then Available
    else
      assert MissingHint(page)[0] != Available[0];
      MissingHint(page)
  }

  /** How `main()` continues once the roster is known. */
  datatype Launch =
    | NoModels(skipped: seq<string>)                          // "ERROR: No models are available!" and return
    | Convene(roster: seq<ModelConfig>, skipped: seq<string>)  // go on to construct the Council

  /**
   * The start of `main()`: the Ollama check on the first listing, the key
   * report, the roster from the second listing and the config, and the
   * early return when the roster is empty, before any Council exists.
   */
  method Prepare(probe: Listing, listing: Listing, keys: ApiKeys, configs: seq<ModelConfig>)
    returns (status: seq<(string, string)>, launch: Launch)
    ensures |status| == 5
    ensures forall i :: 0 <= i < 5 ==> status[i].0 == Services[i]
    ensures forall i :: 0 <= i < 5 ==> (status[i].1 == Available <==> KeyAt(keys, i) != "")
    ensures forall i :: 0 <= i < 5 && KeyAt(keys, i) == "" ==> status[i].1 == MissingHint(KeyPages[i])
    ensures var r := AssembledRoster(!probe.ListFailed?, listing, configs);
      && (launch.NoModels? <==> r.available == [])
      && (launch.NoModels? ==> launch.skipped == r.skipped)
      && (launch.Convene? ==> launch.roster == r.available && launch.skipped == r.skipped)
  {
    var connected, baseNames := CheckConnection(probe);
    status := CheckApiKeys(keys);
    var available, skipped := Assemble(connected, listing, configs);
    if available == [] {
      return status, NoModels(skipped);
    }
    launch := Convene(available, skipped);
  }

  /** When the CLI goes on to the Council, its roster is never empty and leads with the detected models. */
  lemma ConveneRoster(probe: Listing, listing: Listing, configs: seq<ModelConfig>)
    requires !probe.ListFailed? && listing.Models? && ListedNames(listing.entries) != []
    ensures var r := AssembledRoster(!probe.ListFailed?, listing, configs);
      r.available != [] && r.available[0].name == ListedNames(listing.entries)[0] && r.available[0].provider == "ollama"
  {
    AssembledRosterSpec(!probe.ListFailed?, listing, configs);
  }

  const PreviewLimit: nat := 300

  /** The opinion text `main()` prints: the first 300 characters and "..." when longer. */
  function OpinionPreview(content: string): (shown: string)
    ensures |content| <= PreviewLimit ==> shown == content
    ensures |content| > PreviewLimit ==>
              |shown| == PreviewLimit + 3 && shown[..PreviewLimit] == content[..PreviewLimit] &&
              shown[PreviewLimit..] == "..."
  {
    if |content| > PreviewLimit then content[..PreviewLimit] + "..." else content
  }

  /** Previewing a preview changes nothing: a shown opinion is already in its final form. */
  lemma OpinionPreviewIdempotent(content: string)
    ensures OpinionPreview(OpinionPreview(content)) == OpinionPreview(content)
  {
    var s := OpinionPreview(content);
    if |content| > PreviewLimit {
      assert s[..PreviewLimit] + "..." == s;
    }
  }
}
