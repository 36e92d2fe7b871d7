# Council of LLM models: roster, provider and display logic in Dafny

This project models the sequential logic around the "council" of language
models in the Krabby repository: how the command-line (`main.py`) and desktop
(`main_gui.py`) front ends assemble the roster of models from the local Ollama
listing and the configured API models, how the provider wrappers
(`council/models.py`) are created and turn a prompt into a request, and the
pure display helpers (hover colour, selector label, error text, status bar,
opinion preview).

Modules:

- `Wrappers` (`wrappers.dfy`): `Option` and `Result`.
- `Text` (`text.dfy`): Python string idioms used by the sources: `split(sep)[0]`,
  `in`, ASCII `lower()`, clamped slices, `join`, `str(n)`, `f"{v:02x}"` and `int(s, 16)`.
- `Models` (`models.dfy`): `create_model`, the constructors' key checks, the
  message-list and single-string prompt layouts, and `generate` with the Ollama
  `:latest` retry. Every SDK or HTTP call is the parameter `call: Request -> Reply`;
  Ollama's connection test is `probe: string -> Probe`.
- `Roster` (`roster.dfy`): the Ollama listing (`Listing`), `check_ollama_connection`
  and the roster merge. `main.py` and `main_gui.py` implement the same logic for both
  (main.py appends detected models inside the listing loop, main_gui.py
  collects the names first); this module holds the one definition and both
  front ends use it.
- `Cli` (`cli.dfy`): `check_api_keys`, the start of `main()` up to the empty-roster
  exit, and the 300-character opinion preview.
- `Gui` (`gui.dfy`): `lighten_color`, `_format_error_message`, the status-bar
  truncation, the selector label, and class `CouncilWindow` holding the fields
  `available_models`, `model_checkboxes` (an insertion-ordered list of
  name/tick pairs), `selected_models` and the two label texts.

Each Ollama `client.list()` answer is an input value: `ListFailed` (it raised),
`Malformed` (not a dict with `models`), or `Models(entries)`. Both front ends call
`list()` twice, once inside `check_ollama_connection` and once for the full
names, so the roster operations take both answers (`probe`, `listing`).

For `lighten_color`, `int(c * 1.2)` is modelled as the integer `(c * 12) / 10`,
on the assumption that the float product and truncation agree with it for
every channel value 0..255.

## Model

| member | source | states |
|---|---|---|
| `Text.SplitHead` | main.py:31 | `split(':')[0]`: a prefix of the name with no separator in it, ending where the name ends or at its first separator |
| `Roster.EntryName` | main.py:29 | the entry's non-empty `model` field wins; otherwise its `name` field, or "" |
| `Roster.CheckConnection` | main.py:16-48 | connected exactly when the listing did not raise; base names only for a dict with `models`, `[]` otherwise (also the body of main_gui.py:861-894) |
| `Roster.DetectedBasesSpec` | main.py:26-33 | reported base names have no ':', each comes from a listed non-empty name, every such name's base is reported, and none twice |
| `Roster.DetectedBasesOrder` | main.py:26-33 | of two reported base names, the earlier one first occurs earlier among the listed names' bases |
| `Roster.DedupElements` | main.py:32-33 | the `if base_name not in ...: append` loop keeps each element once, loses none, invents none |
| `Roster.DedupFirstSeenOrder` | main.py:32-33 | for any two positions of the de-duplicated list, the earlier element first occurs earlier in the input |
| `Roster.DedupOfDistinct` | main.py:32-33 | a list with no repeats passes through unchanged |
| `Roster.Assemble` | main_gui.py:554-588 | the two loops compute exactly the roster and skipped list of `AssembledRoster` |
| `Roster.MergeAppends` | main_gui.py:569-588 | the config loop only appends; each appended entry is a configured non-Ollama model with a key whose (name, provider) matches no earlier entry; the skipped list grows by exactly the keyless API models' notes |
| `Roster.MergeCovers` | main.py:141-147 | every configured API model with a key is represented by its (name, provider) afterwards |
| `Roster.FirstKeyed` | main.py:138-143 | the position of the first config that is an API model with a key for a (name, provider) pair; no earlier config is one |
| `Roster.MergeKeepsFirst` | main_gui.py:579-583 | each appended entry is exactly the first config that is a keyed API model with its (name, provider); later configs with that pair are dropped |
| `Roster.MergeOrder` | main_gui.py:569-583 | of two appended entries, the earlier one comes from the earlier config: the API part keeps config order |
| `Roster.MergeIgnoresOllamaConfigs` | main_gui.py:573-576 | removing the configured Ollama entries changes neither list |
| `Roster.AssembledRosterSpec` | main.py:111-151 | detected Ollama models first, in listing order, with provider "ollama"; then only keyed API configs; skipped list is exactly the notes "name (no API key)" of keyless API configs |
| `Roster.AssembledRosterApiOrder` | main.py:127-143 | after the detected Ollama models, each entry is the first keyed config with its (name, provider), and the entries follow config order |
| `Cli.KeyStatus` | main.py:58-61 | the tick exactly when the key is non-empty, otherwise the hint with the signup page |
| `Cli.CheckApiKeys` | main.py:50-83 | five entries in the order HuggingFace, Groq, Google Gemini, Together AI, Cohere; each ticked exactly when its key is non-empty, otherwise the service's hint |
| `Cli.Prepare` | main.py:91-162 | the key report exactly as `CheckApiKeys` gives it; `NoModels` exactly when the assembled roster is empty, returned before any Council is built; otherwise the roster and skipped list handed on |
| `Cli.ConveneRoster` | main.py:113-128 | with Ollama reachable and a named model listed, the roster is non-empty and starts with that model |
| `Cli.OpinionPreview` | main.py:208-212 | content of at most 300 characters is shown unchanged; longer content as its first 300 characters followed by "..." |
| `Cli.OpinionPreviewIdempotent` | main.py:208-212 | previewing a preview gives the same text |
| `Models.CreateModel` | council/models.py:245-269 | `UnknownProvider` exactly for providers outside the six; "google" always fails; Groq, Together and Cohere fail with their own `MissingApiKey` on an empty key and otherwise build their own backend with the configured name and key; HuggingFace never fails and gets its inference URL; Ollama uses the default URL when none is configured and fails exactly when its probe does |
| `Models.CreateModelErrorText` | council/models.py:245-269 | the unknown-provider text, the "<Service> API key is required" texts of council/models.py:77, 200 and 226, and the Ollama connection text of council/models.py:32 |
| `Models.ChatLayout` | council/models.py:36-39 | a system message only for a truthy system prompt, then exactly one user message with the prompt (the same list at council/models.py:82-85 and 205-208) |
| `Models.ChatMessages` | council/models.py:82-85 | the appending code builds exactly that list |
| `Models.SinglePrompt` | council/models.py:107-109 | system prompt + "\n\n" + prompt when the system prompt is truthy, the prompt alone otherwise; the prompt is always its tail (also council/models.py:231-233) |
| `Models.AuthHeaders` | council/models.py:111-113 | an `Authorization: Bearer key` header exactly when the key is non-empty, and no other header |
| `Models.RequestFor` | council/models.py:80-241 | Ollama, Groq and Together send a chat of `ChatLayout`; HuggingFace posts `SinglePrompt` with `AuthHeaders` to its URL; Cohere sends `SinglePrompt` |
| `Models.RequestCarriesPrompt` | council/models.py:105-109 | every backend's request delivers the prompt intact, with the system prompt ahead of it exactly when it is truthy |
| `Models.OllamaChat` | council/models.py:41-69 | the exact name first; a second try with name + ":latest" exactly when the first failed and ":latest" is not in the name; success exactly when a try replied; on failure the first error is the one reported |
| `Models.Generate` | council/models.py:34-243 | non-Ollama backends send their request once and wrap a failure in their own error text; Ollama replies from the first try, else from the `:latest` retry when one is made, else reports the first error |
| `Gui.StripLeading` | main_gui.py:502 | `lstrip('#')`: a suffix of the input not starting with '#', everything removed being '#' |
| `Gui.EncodeRgbRoundTrip` | main_gui.py:503-505 | the encoding is '#' and six lower-case hex digits, and parsing it gives the channels back in R, G, B order |
| `Gui.LightenChannel` | main_gui.py:504 | the channel never gets darker; it is the floor of 1.2 times the input while that is below 256, and 255 exactly when 1.2 times the input is at least 255 |
| `Gui.LightenChannelFixed` | main_gui.py:504 | a channel is unchanged exactly when it is below 5 or 255 |
| `Gui.LightenColor` | main_gui.py:500-505 | defined exactly when the three slices parse; the result is well formed, its channels are the lightened input channels, each at least the input's |
| `Gui.Classify` | main_gui.py:1058-1091 | on the lower-cased message: "api key"/"api_key" first, then "ollama", then "timeout", else generic |
| `Gui.ClassifyIgnoresCase` | main_gui.py:1058 | a message and its lower-cased form get the same class |
| `Gui.FormatError` | main_gui.py:1056-1097 | opens with its class's headline and a blank line, is longer than 50 characters, and contains the original message verbatim |
| `Gui.StatusText` | main_gui.py:1106 | the first line unchanged for a message of at most 50 characters; for a longer message (length of the WHOLE message) the first line cut to 50 characters plus "..." |
| `Gui.EllipsisAfterShortFirstLine` | main_gui.py:1106 | a short first line followed by more text gets "..." though nothing of it was cut |
| `Gui.StatusOfFormattedError` | main_gui.py:950-955 | for a failed deliberation the status bar shows only the class headline followed by "..." |
| `Gui.DropdownLabel` | main_gui.py:645-668 | "No models selected" for none; "All models selected (N)" when all are; the one name, or "a, b", for one or two; "a, b, +k more" with k = count - 2 otherwise |
| `Text.JoinContains` | main_gui.py:661 | every name joined by `", ".join` appears in the label |
| `Gui.Lookup` | main_gui.py:830 | no answer exactly when no box has that name; an answer is the tick of a box with that name |
| `Gui.CheckedNames` | main_gui.py:659 | a name is listed exactly when a ticked box carries it |
| `Gui.CheckedNamesAppend` | main_gui.py:659 | the comprehension goes through the dict in order: the ticked names of two runs of boxes are those of the first run followed by those of the second |
| `Gui.CheckedNamesOne` | main_gui.py:659 | a single box contributes its name exactly when it is ticked, so there is one name per ticked box |
| `Gui.ChosenAppend` | main_gui.py:827-831 | the selection loop goes through the roster in order: the selection of two runs of entries is that of the first followed by that of the second |
| `Gui.ChosenOne` | main_gui.py:829-831 | a single entry is selected exactly when the box of its name is ticked |
| `Gui.ChosenMembers` | main_gui.py:827-831 | an entry is selected exactly when it is on the roster and the box of its name is ticked |
| `Gui.ChosenAllTicked` | main_gui.py:627-638 | with every name's box ticked, the selection is the whole roster, in order |
| `Gui.PopulatedLabel` | main_gui.py:628-635 | after filling the boxes the label reads "All models selected (N)" when the names are distinct; a repeated name leaves fewer boxes than entries, so the partial branch is taken |
| `Gui.OllamaCount` | main_gui.py:598-599 | zero exactly when no entry is an Ollama model, the roster size exactly when all are |
| `Gui.AvailabilityStatus` | main_gui.py:598-607 | "✅ N models available" followed by "(o Ollama, a API)" when both kinds are present, "(N Ollama)" or "(N API)" when only one is, then " - Select models to use" |
| `Gui.AvailabilityCounts` | main_gui.py:596-599 | the Ollama count of an assembled roster is the number of models the listing auto-detected |
| `Gui.CouncilWindow.constructor` | main_gui.py:42-44 | the roster, the boxes and the selection start empty, and the boxes form a dict (no name twice) |
| `Gui.CouncilWindow.UpdateDropdownDisplay` | main_gui.py:640-668 | no change for an empty roster; otherwise the label of the ticked names against the roster size |
| `Gui.CouncilWindow.ApplyModelSelection` | main_gui.py:824-837 | applied exactly when some entry is ticked; then the selection is the ticked entries in roster order; otherwise the old selection stays |
| `Gui.CouncilWindow.PopulateModelCheckboxes` | main_gui.py:616-638 | keeps the boxes a dict with no name twice; stores the roster; empty: "No models available"; otherwise one ticked box per distinct name in first-seen order, the label refreshed, and the whole roster selected |
| `Gui.CouncilWindow.CheckAvailability` | main_gui.py:532-614 | stores the assembled roster and returns the skipped list; an empty roster gives the "No models available" label and status and leaves boxes and selection as they were; otherwise one ticked box per distinct name, the refreshed label, the whole roster selected, and the availability status |
| `Gui.CouncilWindow.ShowError` | main_gui.py:1099-1107 | the status bar reads "❌ Error: " and the truncated text |
| `Gui.CouncilWindow.DeliberationFailed` | main_gui.py:950-955 | the formatted error is shown, and the status bar carries only its headline and "..." |

## Left out

- The deliberation and voting engine (`Council.deliberate`, discussion rounds, the tally and its tie-break) is not part of this model: its source is not among the files modelled.
- Council construction (main.py:168-172, main_gui.py:840-859) and its exceptions: `Council` is not part of this model; `Prepare` stops where it would be built, and `ApplyModelSelection` where the worker thread would start.
- All network and SDK calls (`ollama.Client().list/chat`, Groq, Together, Cohere, `requests.post`) are inputs: `Listing`, `Probe`, `Reply`. How replies are picked out of responses (`response['message']['content']`, HuggingFace's `generated_text` list handling) is folded into `Reply`.
- Sampling parameters (temperature, token limits, timeout 30) are constants passed to the SDKs and are not modelled.
- `GoogleModel.generate` and its name map: its constructor always raises, so it can never run.
- A listing entry that is not a dict (which would raise inside the loop and turn the result into "not connected") is not modelled; entries are records with optional `model` and `name`.
- tkinter widgets, colours of labels, animations (`animate_progress`, fades, typing), message boxes, the file dialog, and the selection dialog (`open_model_selection_dialog`, select all / deselect all): widget state is reduced to the fields of `CouncilWindow`.
- Threads and `root.after` scheduling: `CheckAvailability` calls `PopulateModelCheckboxes` directly instead of scheduling it.
- `CheckAvailability`: the interim "Checking model availability..." status (main_gui.py:532) is not modelled; the worker always overwrites it.
- Printing and logging, the result display loops apart from the opinion preview, `validate_input`, and the JSON export (the inline export in `main()`, main.py:230-236, and `save_results`, main_gui.py:1137).
- config.py: environment variables become the `ApiKeys` value and the `configs` input.
- `LightenColor`: Python's `int(s, 16)` also accepts a slice with a sign, surrounding whitespace or non-ASCII decimal digits such as Arabic-Indic digits (then giving negative, odd or unexpected channels); the model reads such a slice as malformed (None), like the other inputs on which the source raises ValueError; the only caller passes constant `#rrggbb` colours (main_gui.py:489).
- `Classify`: `str.lower()` is modelled for ASCII letters only.
