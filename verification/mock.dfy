/** The mock backend (backend_mock.go): it counts the audio bytes received and
    emits the words of a fixed sentence, in order and each at most once, one
    per half second of audio; after the last word it drains its input. The
    float comparison `audioSec > (wordIdx+1)*0.5`, with `audioSec =
    totalBytes / (sampleRate*2)`, is read in exact arithmetic, including
    Go's float results for a zero or negative sample rate. The 50 ms pause
    and the log lines are left out; cancellation is the end of input. */
module Mock {
  import opened Common

  /** The words, in emission order (backend_mock.go:22-27). */
  const Words: seq<string> := ["The ", "quick ", "brown ", "fox ", "jumps ", "over ",
                               "the ", "lazy ", "dog. ",
                               "This ", "is ", "a ", "test ", "of ", "the ",
                               "dictation ", "system. "]

  lemma WordCount()
    ensures |Words| == 17
  {
  }

  /** Whether word `k` (0-based) is due after `total` bytes: `total/(2*sr) >
      (k+1)/2`, that is `total > (k+1)*sr` for a positive rate; a zero rate
      makes `audioSec` +Inf for any audio (NaN, never due, for none); a
      negative rate makes it at most zero, never due. */
  predicate Due(total: nat, k: nat, sampleRate: int)
  {
    if sampleRate > 0 then total > (k + 1) * sampleRate
    else if sampleRate == 0 then total > 0
    else false
  }

  /** More audio never makes a due word undue, and a later word is never due
      before an earlier one. */
  lemma DueMonotone(t1: nat, t2: nat, k1: nat, k2: nat, sampleRate: int)
    requires t1 <= t2 && k2 <= k1 && Due(t1, k1, sampleRate)
    ensures Due(t2, k2, sampleRate)
  {
    if sampleRate > 0 {
      assert (k2 + 1) * sampleRate <= (k1 + 1) * sampleRate;
    }
  }

  /** The number of words emitted once `total` bytes have arrived, counting
      from word `from`: words are emitted while the next one is due. */
  function EmittedFrom(total: nat, sampleRate: int, from: nat): (n: nat)
    requires from <= |Words|
    ensures from <= n <= |Words|
    ensures forall k :: from <= k < n ==> Due(total, k, sampleRate)
    ensures n < |Words| ==> !Due(total, n, sampleRate)
    decreases |Words| - from
  {
    if from == |Words| || !Due(total, from, sampleRate) then from
    else EmittedFrom(total, sampleRate, from + 1)
  }

  function Emitted(total: nat, sampleRate: int): nat
  {
    EmittedFrom(total, sampleRate, 0)
  }

  /** The emitted count is pinned down by its two defining facts. */
  lemma {:induction false} EmittedIs(total: nat, sampleRate: int, from: nat, n: nat)
    requires from <= n <= |Words|
    requires forall k :: from <= k < n ==> Due(total, k, sampleRate)
    requires n < |Words| ==> !Due(total, n, sampleRate)
    ensures EmittedFrom(total, sampleRate, from) == n
    decreases n - from
  {
    if from < n {
      EmittedIs(total, sampleRate, from + 1, n);
    }
  }

  /** Word `k` has been emitted exactly when it is due. */
  lemma EmittedIffDue(total: nat, sampleRate: int, k: nat)
    requires k < |Words|
    ensures k < Emitted(total, sampleRate) <==> Due(total, k, sampleRate)
  {
    var n := Emitted(total, sampleRate);
    if k >= n && Due(total, k, sampleRate) {
      DueMonotone(total, total, k, n, sampleRate);
    }
  }

  /** More audio never takes a word back. */
  lemma EmittedMonotone(t1: nat, t2: nat, sampleRate: int)
    requires t1 <= t2
    ensures Emitted(t1, sampleRate) <= Emitted(t2, sampleRate)
  {
    var n1 := Emitted(t1, sampleRate);
    if n1 > 0 {
      DueMonotone(t1, t2, n1 - 1, n1 - 1, sampleRate);
      EmittedIffDue(t2, sampleRate, n1 - 1);
    }
  }

  /** `totalBytes`: the number of audio bytes in the chunks received. */
  function AudioBytes(chunks: seq<Chunk>): nat
  {
    |Flatten(chunks)|
  }

  /** The inner loop (backend_mock.go:44-54): emits every word that is due
      after `totalBytes` bytes, starting at `wordIdx`. */
  method EmitDue(totalBytes: nat, sampleRate: int, wordIdx: nat) returns (next: nat, emitted: seq<string>)
    requires wordIdx <= Emitted(totalBytes, sampleRate)
    ensures next == Emitted(totalBytes, sampleRate)
    ensures emitted == Words[wordIdx..next]
  {
    next, emitted := wordIdx, [];
    while next < |Words| && Due(totalBytes, next, sampleRate)
      invariant wordIdx <= next <= Emitted(totalBytes, sampleRate)
      invariant emitted == Words[wordIdx..next]
    {
      EmittedIffDue(totalBytes, sampleRate, next);
      assert next % |Words| == next;
      SliceSnoc(Words, wordIdx, next);
      emitted := emitted + [Words[next % |Words|]];
      next := next + 1;
    }
    if next < |Words| {
      EmittedIffDue(totalBytes, sampleRate, next);
    }
  }

  /** `Transcribe` (backend_mock.go:21-65): `totalBytes` is the length of the
      audio so far; after each chunk the due words are emitted; once all 17 are out
      the rest of the input is drained. Returns the words relayed and the
      error, always nil. */
  method Transcribe(sampleRate: int, chunks: seq<Chunk>) returns (texts: seq<string>, err: Option<string>)
    ensures texts == Words[..Emitted(AudioBytes(chunks), sampleRate)]
    ensures err == None
  {
    texts, err := [], None;
    var totalBytes := 0;
    var wordIdx := 0;
    var i := 0;
    while i < |chunks|
      invariant 0 <= i <= |chunks|
      invariant totalBytes == AudioBytes(chunks[..i])
      invariant wordIdx == Emitted(totalBytes, sampleRate) && wordIdx < |Words|
      invariant texts == Words[..wordIdx]
    {
      AudioSoFarStep(chunks, i, sampleRate);
      totalBytes := totalBytes + |chunks[i]|;
      var next, words := EmitDue(totalBytes, sampleRate, wordIdx);
      WordsSplit(wordIdx, next);
      texts := texts + words;
      wordIdx := next;
      i := i + 1;
      if wordIdx >= |Words| {
        // Drain: the remaining chunks are read and ignored.
        DrainedLen(chunks, i, sampleRate);
        return;
      }
    }
    assert chunks[..i] == chunks;
  }

  /** Once every word is out, the rest of the input changes nothing. */
  lemma DrainedLen(chunks: seq<Chunk>, i: nat, sampleRate: int)
    requires i <= |chunks| && Emitted(AudioBytes(chunks[..i]), sampleRate) == |Words|
    ensures Emitted(AudioBytes(chunks), sampleRate) == |Words|
  {
    AudioSoFarGrows(chunks, i);
    EmittedMonotone(AudioBytes(chunks[..i]), AudioBytes(chunks), sampleRate);
  }

  /** One more chunk adds its length to the byte count and takes back no
      word. */
  lemma AudioSoFarStep(chunks: seq<Chunk>, i: nat, sampleRate: int)
    requires i < |chunks|
    ensures AudioBytes(chunks[..i + 1]) == AudioBytes(chunks[..i]) + |chunks[i]|
    ensures Emitted(AudioBytes(chunks[..i]), sampleRate) <= Emitted(AudioBytes(chunks[..i + 1]), sampleRate)
  {
    assert chunks[..i + 1] == chunks[..i] + [chunks[i]];
    FlattenAppend(chunks[..i], chunks[i]);
    EmittedMonotone(AudioBytes(chunks[..i]), AudioBytes(chunks[..i + 1]), sampleRate);
  }

  lemma WordsSplit(i: nat, j: nat)
    requires i <= j <= |Words|
    ensures Words[..i] + Words[i..j] == Words[..j]
  {
  }

  lemma AudioSoFarGrows(chunks: seq<Chunk>, i: nat)
    requires i <= |chunks|
    ensures AudioBytes(chunks[..i]) <= AudioBytes(chunks)
  {
    assert chunks == chunks[..i] + chunks[i..];
    FlattenConcat(chunks[..i], chunks[i..]);
  }

  /** At 16 kHz the first word needs more than 16000 bytes (half a second),
      and all 17 are out after 272001 bytes. */
  lemma MockPacing()
    ensures Emitted(16000, 16000) == 0
    ensures Emitted(16001, 16000) == 1
    ensures Emitted(272001, 16000) == 17
  {
    EmittedIs(16000, 16000, 0, 0);
    EmittedIs(16001, 16000, 0, 1);
    EmittedIs(272001, 16000, 0, 17);
  }
}
