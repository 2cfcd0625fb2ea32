/** The llama.cpp batch backend (backend_llamacpp.go): its constructor's
    defaulting, its `Transcribe` loop (the shared accumulate-and-flush loop
    with a threshold of `sampleRate*2*chunkSeconds` bytes) and the selection
    of the text it relays from a server reply. The HTTP request, base64 and
    JSON encoding are left out: the server is a function from the WAV bytes
    sent to the decoded reply, `None` for any failure `sendChunk` only logs. */
module LlamaCpp {
  import opened Common
  import Batching
  import Wav

  datatype LlamaCppBackend = LlamaCppBackend(url: string, sampleRate: int, chunkSeconds: int)

  /** The default batch length in seconds (backend_llamacpp.go:24-26). */
  const DefaultChunkSeconds: int := 3

  /** `NewLlamaCppBackend` (backend_llamacpp.go:23-32). */
  function NewLlamaCppBackend(url: string, sampleRate: int, chunkSeconds: int): (b: LlamaCppBackend)
    ensures b.url == url && b.sampleRate == sampleRate
    ensures b.chunkSeconds > 0
    ensures chunkSeconds > 0 ==> b.chunkSeconds == chunkSeconds
  {
    LlamaCppBackend(url, sampleRate, if chunkSeconds <= 0 then DefaultChunkSeconds else chunkSeconds)
  }

  /** Defaulting is idempotent: a constructed backend is a fixed point. */
  lemma NewIdempotent(url: string, sampleRate: int, chunkSeconds: int)
    ensures var b := NewLlamaCppBackend(url, sampleRate, chunkSeconds);
            NewLlamaCppBackend(b.url, b.sampleRate, b.chunkSeconds) == b
    ensures chunkSeconds <= 0 ==> NewLlamaCppBackend(url, sampleRate, chunkSeconds).chunkSeconds == DefaultChunkSeconds
  {
  }

  /** `bytesPerChunkPeriod`: two bytes per mono sample (backend_llamacpp.go:35). */
  function Threshold(b: LlamaCppBackend): int
  {
    b.sampleRate * 2 * b.chunkSeconds
  }

  /** The decoded reply: the message content of each choice, in order. */
  datatype Reply = Reply(choices: seq<string>)

  /** The fragment `sendChunk` relays (backend_llamacpp.go:122-130): the first
      choice's content, only when there is a choice and its content is not
      empty; nothing after a failure. */
  function FirstChoiceText(reply: Option<Reply>): (r: seq<string>)
    ensures |r| <= 1
    ensures r != [] <==> reply.Some? && |reply.value.choices| > 0 && reply.value.choices[0] != ""
    ensures r != [] ==> r[0] == reply.value.choices[0]
  {
    match reply
    case None => []
    case Some(rep) => if |rep.choices| > 0 && rep.choices[0] != "" then [rep.choices[0]] else []
  }

  /** `sendChunk`: the batch is wrapped in a WAV header and posted. */
  function Send(b: LlamaCppBackend, server: seq<Byte> -> Option<Reply>): seq<Byte> -> seq<string>
  {
    pcm => FirstChoiceText(server(Wav.PcmToWav(pcm, b.sampleRate)))
  }

  /** `Transcribe` (backend_llamacpp.go:34-61): the batches posted, the
      fragments relayed, and the error returned, which is always nil, so the
      daemon never retries this backend. */
  method Transcribe(b: LlamaCppBackend, chunks: seq<Chunk>, server: seq<Byte> -> Option<Reply>)
    returns (batches: seq<seq<Byte>>, texts: seq<string>, err: Option<string>)
    ensures batches == Batching.Batches(chunks, Threshold(b))
    ensures Flatten(batches) == Flatten(chunks)
    ensures texts == Batching.Relayed(batches, Send(b, server))
    ensures |texts| <= |batches| && forall k :: 0 <= k < |texts| ==> texts[k] != ""
    ensures err == None
  {
    batches, texts, err := Batching.Transcribe(chunks, Threshold(b), Send(b, server));
    Batching.BatchesKeepAudio(chunks, Threshold(b));
    forall pcm: seq<Byte>
      ensures |Send(b, server)(pcm)| <= 1
      ensures forall k :: 0 <= k < |Send(b, server)(pcm)| ==> Send(b, server)(pcm)[k] != ""
    {
      assert Send(b, server)(pcm) == FirstChoiceText(server(Wav.PcmToWav(pcm, b.sampleRate)));
    }
    Batching.RelayedShape(batches, Send(b, server));
  }
}
