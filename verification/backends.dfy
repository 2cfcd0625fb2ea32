/** `NewBackend` (backend.go:15-49): the configured backend name selects one
    of five constructions, each given its part of the configuration. The
    WebSocket backend (backend_ws.go) is not part of this model: its
    construction is recorded by the arguments it is given. Where the
    Mistral API key is needed and missing, the process exits; that is the
    `MissingApiKey` failure here. */
module Backends {
  import opened Common
  import LlamaCpp
  import MistralBatch

  /** The parts of the configuration `NewBackend` reads (config.go). */
  datatype Config = Config(name: string, sampleRate: int,
                           mistralApiKey: string, mistralModel: string,
                           vllmUrl: string, vllmModel: string,
                           llamaUrl: string, llamaChunkSeconds: int)

  datatype Backend =
    | WebSocket(url: string, model: string, apiKey: string, sampleRate: int)
    | MistralBatchB(batch: MistralBatch.MistralBatchBackend)
    | LlamaCppB(llama: LlamaCpp.LlamaCppBackend)
    | MockB(sampleRate: int)

  datatype BackendError =
    | UnknownBackend(name: string)   // `unknown backend: %q`
    | MissingApiKey(message: string) // `mustGetMistralAPIKey` exits the process

  const RealtimeUrlPrefix: string := "wss://api.mistral.ai/v1/audio/transcriptions/realtime?model="

  const KnownNames: set<string> := {"mistral-realtime", "mistral-batch", "vllm-realtime", "llamacpp", "mock"}

  /** `NewBackend`; `envKey` is the environment's `MISTRAL_API_KEY`. */
  function NewBackend(cfg: Config, envKey: string): (r: Result<Backend, BackendError>)
    ensures r.Failure? && r.error.UnknownBackend? <==> cfg.name !in KnownNames
    ensures r.Failure? && r.error.UnknownBackend? ==> r.error.name == cfg.name
    ensures r.Failure? && r.error.MissingApiKey? <==>
              (cfg.name == "mistral-realtime" || cfg.name == "mistral-batch")
              && MistralBatch.MustGetMistralApiKey(cfg.mistralApiKey, envKey).Failure?
  {
    match cfg.name
    case "mistral-realtime" =>
      (match MistralBatch.MustGetMistralApiKey(cfg.mistralApiKey, envKey)
       case Failure(msg) => Failure(MissingApiKey(msg))
       case Success(key) =>
         Success(WebSocket(RealtimeUrlPrefix + cfg.mistralModel, cfg.mistralModel, key, cfg.sampleRate)))
    case "mistral-batch" =>
      (match MistralBatch.MustGetMistralApiKey(cfg.mistralApiKey, envKey)
       case Failure(msg) => Failure(MissingApiKey(msg))
       case Success(key) =>
         Success(MistralBatchB(MistralBatch.NewMistralBatchBackend(key, "voxtral-mini-latest", cfg.sampleRate, 5))))
    case "vllm-realtime" =>
      Success(WebSocket(cfg.vllmUrl, cfg.vllmModel, "", cfg.sampleRate))
    case "llamacpp" =>
      Success(LlamaCppB(LlamaCpp.NewLlamaCppBackend(cfg.llamaUrl, cfg.sampleRate, cfg.llamaChunkSeconds)))
    case "mock" =>
      Success(MockB(cfg.sampleRate))
    case _ =>
      Failure(UnknownBackend(cfg.name))
  }

  /** Each name gets its own kind of backend, built for the configured
      sample rate. */
  lemma EachNameItsVariant(cfg: Config, envKey: string)
    requires NewBackend(cfg, envKey).Success?
    ensures var b := NewBackend(cfg, envKey).value;
            && (cfg.name == "mistral-realtime" || cfg.name == "vllm-realtime" <==> b.WebSocket?)
            && (cfg.name == "mistral-batch" <==> b.MistralBatchB?)
            && (cfg.name == "llamacpp" <==> b.LlamaCppB?)
            && (cfg.name == "mock" <==> b.MockB?)
            && (b.WebSocket? ==> b.sampleRate == cfg.sampleRate)
            && (b.MistralBatchB? ==> b.batch.sampleRate == cfg.sampleRate)
            && (b.LlamaCppB? ==> b.llama.sampleRate == cfg.sampleRate)
            && (b.MockB? ==> b.sampleRate == cfg.sampleRate)
  {
  }

  /** The realtime URL is the fixed prefix followed by the configured model,
      and the key is the configured one, else the environment's. */
  lemma RealtimeUrl(cfg: Config, envKey: string)
    requires cfg.name == "mistral-realtime" && NewBackend(cfg, envKey).Success?
    ensures var b := NewBackend(cfg, envKey).value;
            && b.url == RealtimeUrlPrefix + cfg.mistralModel
            && b.url[..|RealtimeUrlPrefix|] == RealtimeUrlPrefix
            && b.url[|RealtimeUrlPrefix|..] == cfg.mistralModel
            && b.apiKey == (if cfg.mistralApiKey != "" then cfg.mistralApiKey else envKey)
  {
  }

  /** The batch backend ignores the configured model and batch length. */
  lemma BatchIgnoresModel(cfg: Config, envKey: string, model: string)
    requires cfg.name == "mistral-batch" && NewBackend(cfg, envKey).Success?
    ensures NewBackend(cfg, envKey).value.batch.model == "voxtral-mini-latest"
    ensures NewBackend(cfg, envKey).value.batch.chunkSeconds == 5
    ensures NewBackend(cfg.(mistralModel := model), envKey) == NewBackend(cfg, envKey)
  {
  }

  /** The local vLLM server gets no key; llama.cpp gets the configured batch
      length, defaulted. */
  lemma LocalBackends(cfg: Config, envKey: string)
    ensures cfg.name == "vllm-realtime" ==>
              && NewBackend(cfg, envKey).Success?
              && NewBackend(cfg, envKey).value.apiKey == ""
              && NewBackend(cfg, envKey).value.url == cfg.vllmUrl
    ensures cfg.name == "llamacpp" ==>
              && NewBackend(cfg, envKey).Success?
              && NewBackend(cfg, envKey).value.llama.chunkSeconds
                 == (if cfg.llamaChunkSeconds <= 0 then 3 else cfg.llamaChunkSeconds)
  {
  }
}
