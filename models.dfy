/**
 * The provider wrappers of council/models.py: the factory that turns a
 * model configuration into a backend, the API-key checks each backend's
 * constructor makes, how each backend turns a prompt and an optional
 * system prompt into the request it sends, and the Ollama retry with a
 * `:latest` tag. The SDK and HTTP calls themselves are a parameter
 * (`call`) that answers every request with a reply or a raised error.
 */
module Models {

  import opened Wrappers
  import opened Text

  /**
   * One entry of the model configuration list. A missing `api_key` reads
   * as "", as `config.get("api_key", "")` does; `base_url` is optional.
   */
  datatype ModelConfig = ModelConfig(name: string, provider: string, apiKey: string, baseUrl: Option<string>)

  const DefaultOllamaUrl: string := "http://localhost:11434"
  const HuggingFaceApiRoot: string := "https://api-inference.huggingface.co/models/"

  /** The six provider strings `create_model` dispatches on. */
  const KnownProviders: set<string> := {"ollama", "groq", "huggingface", "google", "together", "cohere"}

  /** A constructed backend with the state its constructor stored. */
  datatype Backend =
    | OllamaBackend(name: string, baseUrl: string)
    | GroqBackend(name: string, apiKey: string)
    | HuggingFaceBackend(name: string, apiKey: string, apiUrl: string)
    | TogetherBackend(name: string, apiKey: string)
    | CohereBackend(name: string, apiKey: string)
  {
    function Name(): string {
      match this
      case OllamaBackend(n, _) => n
      case GroqBackend(n, _) => n
      case HuggingFaceBackend(n, _, _) => n
      case TogetherBackend(n, _) => n
      case CohereBackend(n, _) => n
    }
  }

  /** What the factory raises. */
  datatype FactoryError =
    | UnknownProvider(provider: string)          // ValueError from create_model
    | MissingApiKey(service: string)             // ValueError from a constructor
    | GoogleDeprecated                           // NotImplementedError from GoogleModel
    | OllamaUnreachable(baseUrl: string, cause: string)

  function FactoryErrorMessage(e: FactoryError): string {
    match e
    case UnknownProvider(p) => "Unknown provider: " + p
    case MissingApiKey(s) => s + " API key is required"
    case GoogleDeprecated =>
      "Google Gemini support is deprecated. The google.generativeai package is no longer maintained. "
      + "Please use google.genai instead or use other model providers."
    case OllamaUnreachable(u, c) =>
      "Cannot connect to Ollama at " + u + ". Make sure Ollama is running. Error: " + c
  }

  /** Outcome of the connection test `ollama.Client(host=url).list()` in OllamaModel's constructor. */
  datatype Probe = Reachable | Unreachable(cause: string)

  /** `create_model(model_config)`, with the Ollama connection test supplied as `probe`. */
  function CreateModel(config: ModelConfig, probe: string -> Probe): (r: Result<Backend, FactoryError>)
    ensures r.Failure? && r.error.UnknownProvider? <==> config.provider !in KnownProviders
    ensures r.Failure? && r.error.UnknownProvider? ==> r.error.provider == config.provider
    ensures config.provider == "google" ==> r == Failure(GoogleDeprecated)
    ensures config.provider in {"groq", "together", "cohere"} ==>
              (r.Failure? <==> config.apiKey == "") && (r.Failure? ==> r.error.MissingApiKey?)
    ensures config.provider == "groq" ==>
              r == if config.apiKey == "" then Failure(MissingApiKey("Groq"))
                   else Success(GroqBackend(config.name, config.apiKey))
    ensures config.provider == "together" ==>
              r == if config.apiKey == "" then Failure(MissingApiKey("Together"))
                   else Success(TogetherBackend(config.name, config.apiKey))
    ensures config.provider == "cohere" ==>
              r == if config.apiKey == "" then Failure(MissingApiKey("Cohere"))
                   else Success(CohereBackend(config.name, config.apiKey))
    ensures config.provider == "huggingface" ==>
              r == Success(HuggingFaceBackend(config.name, config.apiKey, HuggingFaceApiRoot + config.name))
    ensures config.provider == "ollama" ==>
              var url := if config.baseUrl.Some? then config.baseUrl.value else DefaultOllamaUrl;
              (r.Success? <==> probe(url).Reachable?) &&
              (r.Success? ==> r.value == OllamaBackend(config.name, url)) &&
              (r.Failure? ==> r.error == OllamaUnreachable(url, probe(url).cause))
    ensures r.Success? ==> r.value.Name() == config.name
  {
    var name := config.name;
    var key := config.apiKey;
    match config.provider
    case "ollama" =>
      var url := if config.baseUrl.Some? then config.baseUrl.value else DefaultOllamaUrl;
      (match probe(url)
       case Reachable => Success(OllamaBackend(name, url))
       case Unreachable(cause) => Failure(OllamaUnreachable(url, cause)))
    case "groq" => if key == "" then Failure(MissingApiKey("Groq")) else Success(GroqBackend(name, key))
    case "huggingface" => Success(HuggingFaceBackend(name, key, HuggingFaceApiRoot + name))
    case "google" => Failure(GoogleDeprecated)
    case "together" => if key == "" then Failure(MissingApiKey("Together")) else Success(TogetherBackend(name, key))
    case "cohere" => if key == "" then Failure(MissingApiKey("Cohere")) else Success(CohereBackend(name, key))
    case _ => Failure(UnknownProvider(config.provider))
  }

  /** The text of each error `create_model` raises, as the constructors and the factory word it. */
  lemma CreateModelErrorText(config: ModelConfig, probe: string -> Probe)
    ensures var r := CreateModel(config, probe);
      && (config.provider !in KnownProviders ==>
            r.Failure? && FactoryErrorMessage(r.error) == "Unknown provider: " + config.provider)
      && (config.provider == "groq" && config.apiKey == "" ==>
            r.Failure? && FactoryErrorMessage(r.error) == "Groq" + " API key is required")
      && (config.provider == "together" && config.apiKey == "" ==>
            r.Failure? && FactoryErrorMessage(r.error) == "Together" + " API key is required")
      && (config.provider == "cohere" && config.apiKey == "" ==>
            r.Failure? && FactoryErrorMessage(r.error) == "Cohere" + " API key is required")
      && (config.provider == "ollama" && r.Failure? ==>
            var url := if config.baseUrl.Some? then config.baseUrl.value else DefaultOllamaUrl;
            FactoryErrorMessage(r.error) ==
              "Cannot connect to Ollama at " + url + ". Make sure Ollama is running. Error: " + probe(url).cause)
  {
  }

  /** A system prompt counts only when it is given and non-empty (Python truthiness). */
  predicate Given(systemPrompt: Option<string>) {
    systemPrompt.Some? && systemPrompt.value != ""
  }

  datatype Role = System | User

  datatype Message = Message(role: Role, content: string)

  /**
   * The `messages` list of the Ollama, Groq and Together backends: a system
   * message only when the system prompt is truthy, then exactly one user
   * message carrying the prompt.
   */
  function ChatLayout(prompt: string, systemPrompt: Option<string>): (m: seq<Message>)
    ensures |m| == if Given(systemPrompt) then 2 else 1
    ensures m[|m| - 1] == Message(User, prompt)
    ensures Given(systemPrompt) ==> m[0] == Message(System, systemPrompt.value)
    ensures forall i :: 0 <= i < |m| - 1 ==> m[i].role == System
  {
    (if Given(systemPrompt) then [Message(System, systemPrompt.value)] else []) + [Message(User, prompt)]
  }

  /** The list as each `generate` builds it, by appending. */
  method ChatMessages(prompt: string, systemPrompt: Option<string>) returns (messages: seq<Message>)
    ensures messages == ChatLayout(prompt, systemPrompt)
  {
    messages := [];
    if Given(systemPrompt) {
      messages := messages + [Message(System, systemPrompt.value)];
    }
    messages := messages + [Message(User, prompt)];
  }

  /**
   * The single text the HuggingFace and Cohere backends send: the system
   * prompt, a blank line, then the prompt; or the prompt alone.
   */
  function SinglePrompt(prompt: string, systemPrompt: Option<string>): (r: string)
    ensures |prompt| <= |r| && r[|r| - |prompt|..] == prompt
    ensures !Given(systemPrompt) ==> r == prompt
    ensures Given(systemPrompt) ==>
              |r| == |systemPrompt.value| + 2 + |prompt| &&
              r[..|systemPrompt.value|] == systemPrompt.value &&
              r[|systemPrompt.value|..|systemPrompt.value| + 2] == "\n\n"
  {
    if Given(systemPrompt) then systemPrompt.value + "\n\n" + prompt else prompt
  }

  /** The HuggingFace request headers: a bearer token only for a non-empty key. */
  function AuthHeaders(apiKey: string): (h: map<string, string>)
    ensures "Authorization" in h <==> apiKey != ""
    ensures "Authorization" in h ==> h["Authorization"] == "Bearer " + apiKey
    ensures h.Keys <= {"Authorization"}
  {
    if apiKey != "" then map["Authorization" := "Bearer " + apiKey] else map[]
  }

  /** What a backend sends: a chat completion, an HTTP post, or a text completion. */
  datatype Request =
    | ChatRequest(model: string, messages: seq<Message>)
    | InferencePost(url: string, headers: map<string, string>, inputs: string)
    | CompletionRequest(model: string, text: string)

  /** The answer of the SDK or HTTP call: the extracted text, or the raised error's text. */
  datatype Reply = Replied(content: string) | Raised(cause: string)

  /** The first request a backend's `generate` sends. */
  function RequestFor(backend: Backend, prompt: string, systemPrompt: Option<string>): (req: Request)
    ensures req.ChatRequest? <==> (backend.OllamaBackend? || backend.GroqBackend? || backend.TogetherBackend?)
    ensures req.ChatRequest? ==> req.model == backend.Name() && req.messages == ChatLayout(prompt, systemPrompt)
    ensures req.InferencePost? <==> backend.HuggingFaceBackend?
    ensures req.InferencePost? ==>
              req.url == backend.apiUrl && req.headers == AuthHeaders(backend.apiKey) &&
              req.inputs == SinglePrompt(prompt, systemPrompt)
    ensures req.CompletionRequest? <==> backend.CohereBackend?
    ensures req.CompletionRequest? ==> req.model == backend.name && req.text == SinglePrompt(prompt, systemPrompt)
  {
    match backend
    case OllamaBackend(n, _) => ChatRequest(n, ChatLayout(prompt, systemPrompt))
    case GroqBackend(n, _) => ChatRequest(n, ChatLayout(prompt, systemPrompt))
    case TogetherBackend(n, _) => ChatRequest(n, ChatLayout(prompt, systemPrompt))
    case HuggingFaceBackend(_, key, url) => InferencePost(url, AuthHeaders(key), SinglePrompt(prompt, systemPrompt))
    case CohereBackend(n, _) => CompletionRequest(n, SinglePrompt(prompt, systemPrompt))
  }

  /** The text a request hands to the model: the last message, or the whole input. */
  function PromptText(req: Request): string {
    match req
    case ChatRequest(_, msgs) => if msgs == [] then "" else msgs[|msgs| - 1].content
    case InferencePost(_, _, inputs) => inputs
    case CompletionRequest(_, text) => text
  }

  /** The text a request hands over as instructions, if any. */
  function Instructions(req: Request): Option<string> {
    match req
    case ChatRequest(_, msgs) => if |msgs| >= 2 && msgs[0].role == System then Some(msgs[0].content) else None
    case InferencePost(_, _, inputs) => None
    case CompletionRequest(_, text) => None
  }

  /**
   * Every backend delivers the user's prompt intact: as the final user
   * message, or as the tail of its single text; a truthy system prompt
   * travels ahead of it, and an absent or empty one adds nothing.
   */
  lemma RequestCarriesPrompt(backend: Backend, prompt: string, systemPrompt: Option<string>)
    ensures var req := RequestFor(backend, prompt, systemPrompt);
      && (req.ChatRequest? ==>
            (PromptText(req) == prompt && Instructions(req) == (if Given(systemPrompt) then systemPrompt else None)))
      && (!req.ChatRequest? ==>
            (var t := PromptText(req);
             |prompt| <= |t| && t[|t| - |prompt|..] == prompt && (Given(systemPrompt) <==> t != prompt)))
  {
    var req := RequestFor(backend, prompt, systemPrompt);
    if !req.ChatRequest? && Given(systemPrompt) {
      assert |PromptText(req)| > |prompt|;
    }
  }

  /** The exception text a backend's `generate` wraps a failure in. */
  function GenerateError(backend: Backend, cause: string): string {
    match backend
    case OllamaBackend(n, _) =>
      "Error generating response from Ollama " + n + ": " + cause + ". Make sure the model is installed: ollama pull " + n
    case GroqBackend(n, _) => "Error generating response from Groq " + n + ": " + cause
    case HuggingFaceBackend(n, _, _) => "Error generating response from HuggingFace " + n + ": " + cause
    case TogetherBackend(n, _) => "Error generating response from Together " + n + ": " + cause
    case CohereBackend(n, _) => "Error generating response from Cohere " + n + ": " + cause
  }

  /**
   * OllamaModel.generate's two attempts: the exact name first; on failure,
   * and only when the name has no ":latest" in it, the name with ":latest"
   * appended. A failed retry is swallowed and the FIRST error is the one
   * reported. `tried` lists the model names asked, in order.
   */
  method OllamaChat(name: string, baseUrl: string, messages: seq<Message>, call: Request -> Reply)
    returns (r: Result<string, string>, tried: seq<string>)
    ensures 1 <= |tried| <= 2 && tried[0] == name
    ensures |tried| == 2 <==> call(ChatRequest(name, messages)).Raised? && !Contains(name, ":latest")
    ensures |tried| == 2 ==> tried[1] == name + ":latest"
    ensures r.Success? <==> exists i :: 0 <= i < |tried| && call(ChatRequest(tried[i], messages)).Replied?
    ensures r.Success? ==> r.value == call(ChatRequest(tried[|tried| - 1], messages)).content
    ensures r.Failure? ==>
              (call(ChatRequest(name, messages)).Raised? &&
               r.error == GenerateError(OllamaBackend(name, baseUrl), call(ChatRequest(name, messages)).cause))
  {
    tried := [name];
    var first := call(ChatRequest(name, messages));
    if first.Replied? {
      return Success(first.content), tried;
    }
    if !Contains(name, ":latest") {
      var retryName := name + ":latest";
      tried := tried + [retryName];
      var second := call(ChatRequest(retryName, messages));
      if second.Replied? {
        return Success(second.content), tried;
      }
    }
    r := Failure(GenerateError(OllamaBackend(name, baseUrl), first.cause));
  }

  function Wrap(backend: Backend, reply: Reply): Result<string, string> {
    match reply
    case Replied(t) => Success(t)
    case Raised(c) => Failure(GenerateError(backend, c))
  }

  /**
   * `backend.generate(prompt, system_prompt)`: sends the backend's request,
   * and wraps a failure in the backend's error text; Ollama alone retries.
   */
  method Generate(backend: Backend, prompt: string, systemPrompt: Option<string>, call: Request -> Reply)
    returns (r: Result<string, string>)
    ensures !backend.OllamaBackend? ==> r == Wrap(backend, call(RequestFor(backend, prompt, systemPrompt)))
    ensures backend.OllamaBackend? ==>
              var first := call(RequestFor(backend, prompt, systemPrompt));
              var retry := call(ChatRequest(backend.name + ":latest", ChatLayout(prompt, systemPrompt)));
              && (first.Replied? ==> r == Success(first.content))
              && (first.Raised? && Contains(backend.name, ":latest") ==> r == Wrap(backend, first))
              && (first.Raised? && !Contains(backend.name, ":latest") ==>
                    r == if retry.Replied? then Success(retry.content) else Wrap(backend, first))
  {
    var messages := [];
    if backend.OllamaBackend? || backend.GroqBackend? || backend.TogetherBackend? {
      messages := ChatMessages(prompt, systemPrompt);
    }
    match backend
    case OllamaBackend(n, url) =>
      var tried;
      r, tried := OllamaChat(n, url, messages, call);
    case GroqBackend(n, _) =>
      r := Wrap(backend, call(ChatRequest(n, messages)));
    case TogetherBackend(n, _) =>
      r := Wrap(backend, call(ChatRequest(n, messages)));
    case HuggingFaceBackend(_, key, url) =>
      r := Wrap(backend, call(InferencePost(url, AuthHeaders(key), SinglePrompt(prompt, systemPrompt))));
    case CohereBackend(n, _) =>
      r := Wrap(backend, call(CompletionRequest(n, SinglePrompt(prompt, systemPrompt))));
  }
}
