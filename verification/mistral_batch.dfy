/** The Mistral batch backend (backend_mistral_batch.go): its constructor's
    defaulting, its `Transcribe` loop (the shared accumulate-and-flush loop),
    the forwarding of a non-empty transcription, and the API key lookup. The
    multipart upload and the HTTP exchange are left out: the service is a
    function from the uploaded WAV bytes to the decoded `text` field, `None`
    for any failure `sendChunk` only logs. */
module MistralBatch {
  import opened Common
  import Batching
  import Wav

  datatype MistralBatchBackend = MistralBatchBackend(apiKey: string, model: string,
                                                     sampleRate: int, chunkSeconds: int)

  const DefaultChunkSeconds: int := 5
  const DefaultModel: string := "voxtral-mini-latest"

  /** `NewMistralBatchBackend` (backend_mistral_batch.go:25-38). */
  function NewMistralBatchBackend(apiKey: string, model: string, sampleRate: int, chunkSeconds: int)
    : (b: MistralBatchBackend)
    ensures b.apiKey == apiKey && b.sampleRate == sampleRate
    ensures b.chunkSeconds > 0 && b.model != ""
    ensures chunkSeconds > 0 ==> b.chunkSeconds == chunkSeconds
    ensures model != "" ==> b.model == model
  {
    MistralBatchBackend(apiKey, if model == "" then DefaultModel else model, sampleRate,
                        if chunkSeconds <= 0 then DefaultChunkSeconds else chunkSeconds)
  }

  /** Defaulting is idempotent, and fills in exactly the defaults. */
  lemma NewIdempotent(apiKey: string, model: string, sampleRate: int, chunkSeconds: int)
    ensures var b := NewMistralBatchBackend(apiKey, model, sampleRate, chunkSeconds);
            && NewMistralBatchBackend(b.apiKey, b.model, b.sampleRate, b.chunkSeconds) == b
            && (chunkSeconds <= 0 ==> b.chunkSeconds == DefaultChunkSeconds)
            && (model == "" ==> b.model == DefaultModel)
  {
  }

  /** `bytesPerPeriod` (backend_mistral_batch.go:41). */
  function Threshold(b: MistralBatchBackend): int
  {
    b.sampleRate * 2 * b.chunkSeconds
  }

  /** A transcription is relayed only when its text is not empty
      (backend_mistral_batch.go:112-117). */
  function ForwardText(text: Option<string>): (r: seq<string>)
    ensures |r| <= 1
    ensures r != [] <==> text.Some? && text.value != ""
    ensures r != [] ==> r[0] == text.value
  {
    if text.Some? && text.value != "" then [text.value] else []
  }

  /** The WAV file uploaded for one batch (backend_mistral_batch.go:68, 79). */
  function Upload(b: MistralBatchBackend, pcm: seq<Byte>): seq<Byte>
  {
    Wav.PcmToWav(pcm, b.sampleRate)
  }

  function Send(b: MistralBatchBackend, service: seq<Byte> -> Option<string>): seq<Byte> -> seq<string>
  {
    pcm => ForwardText(service(Upload(b, pcm)))
  }

  /** `Transcribe` (backend_mistral_batch.go:40-65): the batches uploaded,
      the fragments relayed, and the error, always nil. */
  method Transcribe(b: MistralBatchBackend, chunks: seq<Chunk>, service: seq<Byte> -> Option<string>)
    returns (batches: seq<seq<Byte>>, texts: seq<string>, err: Option<string>)
    ensures batches == Batching.Batches(chunks, Threshold(b))
    ensures Flatten(batches) == Flatten(chunks)
    ensures texts == Batching.Relayed(batches, Send(b, service))
    ensures |texts| <= |batches| && forall k :: 0 <= k < |texts| ==> texts[k] != ""
    ensures err == None
  {
    batches, texts, err := Batching.Transcribe(chunks, Threshold(b), Send(b, service));
    Batching.BatchesKeepAudio(chunks, Threshold(b));
    forall pcm: seq<Byte>
      ensures |Send(b, service)(pcm)| <= 1
      ensures forall k :: 0 <= k < |Send(b, service)(pcm)| ==> Send(b, service)(pcm)[k] != ""
    {
      assert Send(b, service)(pcm) == ForwardText(service(Upload(b, pcm)));
    }
    Batching.RelayedShape(batches, Send(b, service));
  }

  /** Each uploaded file carries its batch verbatim behind a header that
      parses back, so the audio in the uploads, in order, is the audio
      received. */
  lemma UploadsCarryAudio(b: MistralBatchBackend, chunks: seq<Chunk>)
    ensures var batches := Batching.Batches(chunks, Threshold(b));
            && Flatten(batches) == Flatten(chunks)
            && forall i :: 0 <= i < |batches| ==>
                 Wav.ParseWav(Upload(b, batches[i]))
                 == Some((Wav.HeaderFor(|batches[i]|, b.sampleRate), batches[i]))
  {
    var batches := Batching.Batches(chunks, Threshold(b));
    Batching.BatchesKeepAudio(chunks, Threshold(b));
    forall i | 0 <= i < |batches|
      ensures Wav.ParseWav(Upload(b, batches[i]))
              == Some((Wav.HeaderFor(|batches[i]|, b.sampleRate), batches[i]))
    {
      Wav.WavRoundTrip(batches[i], b.sampleRate);
    }
  }

  /** Why the process would exit instead of returning a key. */
  const MissingKeyMessage: string := "Set MISTRAL_API_KEY or api_key in config\n"

  /** `mustGetMistralAPIKey` (backend_mistral_batch.go:120-130): the
      configured key, else the environment's `MISTRAL_API_KEY`; the exit when
      both are empty is a failure here. */
  function MustGetMistralApiKey(configKey: string, envKey: string): (r: Result<string, string>)
    ensures r.Success? <==> configKey != "" || envKey != ""
    ensures r.Success? ==> r.value != "" && (r.value == configKey || (configKey == "" && r.value == envKey))
    ensures r.Failure? ==> r.error == MissingKeyMessage
  {
    var key := if configKey == "" then envKey else configKey;
    if key == "" then Failure(MissingKeyMessage) else Success(key)
  }
}
