/** The chunking in `runTest` (test.go:30-44): a PCM file is cut into chunks
    of `chunkBytes` bytes, the last one shorter, and fed to the backend. The
    pacing sleeps, the timeout and the printing are left out. */
module TestDriver {
  import opened Common
  import Audio

  /** test.go:30: the multiplication by two comes before the division. */
  function TestChunkBytes(sampleRate: int, chunkMs: int): (n: int)
    ensures sampleRate * 2 * chunkMs >= 0 ==>
              1000 * n <= sampleRate * 2 * chunkMs < 1000 * n + 1000
  {
    GoQuo(sampleRate * 2 * chunkMs, 1000)
  }

  /** Unlike the recorder's, the test chunk size can be odd, splitting a
      sample across two chunks: 22050 Hz and 10 ms give 441 bytes here and
      440 in the recorder. At the defaults the two agree. */
  lemma TestChunkCanBeOdd()
    ensures TestChunkBytes(22050, 10) == 441
    ensures Audio.NewRecorder(Audio.AudioConfig(22050, 10, "")).chunkBytes == 440
    ensures TestChunkBytes(16000, 480) == Audio.NewRecorder(Audio.AudioConfig(16000, 480, "")).chunkBytes
  {
  }

  /** The chunks of `data` in feeding order: slices of `size` bytes, the
      last one shorter. */
  function ChunksOf(data: seq<Byte>, size: nat): seq<Chunk>
    requires size > 0
    decreases |data|
  {
    if data == [] then []
    else if |data| <= size then [data]
    else [data[..size]] + ChunksOf(data[size..], size)
  }

  /** Feeding the chunks in order feeds exactly the file. */
  lemma {:induction false} ChunksCoverData(data: seq<Byte>, size: nat)
    requires size > 0
    ensures Flatten(ChunksOf(data, size)) == data
    decreases |data|
  {
    if data == [] {
    } else if |data| <= size {
      FlattenSingleton(data);
    } else {
      var head, tail := data[..size], data[size..];
      ChunksCoverData(tail, size);
      FlattenSingleton(head);
      FlattenConcat([head], ChunksOf(tail, size));
      assert head + tail == data;
    }
  }

  datatype SplitError =
    | NeverEnds      // a zero size never advances: empty chunks without end
    | NegativeSlice  // a negative size makes `make` panic on the first chunk

  /** The feeding loop (test.go:34-44): slices of `chunkBytes` bytes copied out
      in order, `i` advancing by `chunkBytes` each time. */
  method SplitChunks(data: seq<Byte>, chunkBytes: int) returns (r: Result<seq<Chunk>, SplitError>)
    ensures data == [] ==> r == Success([])
    ensures data != [] && chunkBytes == 0 ==> r == Failure(NeverEnds)
    ensures data != [] && chunkBytes < 0 ==> r == Failure(NegativeSlice)
    ensures chunkBytes > 0 ==> r == Success(ChunksOf(data, chunkBytes))
  {
    if data == [] {
      return Success([]);
    }
    if chunkBytes == 0 {
      return Failure(NeverEnds);
    }
    if chunkBytes < 0 {
      return Failure(NegativeSlice);
    }
    var chunks: seq<Chunk> := [];
    var i := 0;
    while i < |data|
      invariant 0 <= i
      invariant i < |data| ==> chunks + ChunksOf(data[i..], chunkBytes) == ChunksOf(data, chunkBytes)
      invariant i >= |data| ==> chunks == ChunksOf(data, chunkBytes)
      decreases |data| - i
    {
      var end := i + chunkBytes;
      if end > |data| {
        end := |data|;
      }
      var chunk := data[i..end];
      if end < |data| {
        assert data[i..][..chunkBytes] == chunk && data[i..][chunkBytes..] == data[end..];
      } else {
        assert data[i..] == chunk;
      }
      chunks := chunks + [chunk];
      i := i + chunkBytes;
    }
    return Success(chunks);
  }

  /** No chunk is empty, and only the last may be short. */
  predicate WellSized(r: seq<Chunk>, size: nat)
  {
    && (forall j :: 0 <= j < |r| ==> 0 < |r[j]| <= size)
    && (forall j :: 0 <= j < |r| - 1 ==> |r[j]| == size)
  }

  lemma {:induction false} ChunkSizes(data: seq<Byte>, size: nat)
    requires size > 0
    ensures WellSized(ChunksOf(data, size), size)
    decreases |data|
  {
    if |data| > size {
      ChunkSizes(data[size..], size);
      var rest := ChunksOf(data[size..], size);
      var r := ChunksOf(data, size);
      assert r == [data[..size]] + rest;
      forall j | 1 <= j < |r|
        ensures 0 < |r[j]| <= size && (j < |r| - 1 ==> |r[j]| == size)
      {
        assert r[j] == rest[j - 1];
      }
    } else if data != [] {
      assert ChunksOf(data, size) == [data];
    }
  }

  /** The number of chunks is the data length divided by the chunk size,
      rounded up. */
  lemma {:induction false} ChunkCount(data: seq<Byte>, size: nat)
    requires size > 0
    ensures var n := |ChunksOf(data, size)|;
            |data| <= n * size < |data| + size
    decreases |data|
  {
    if |data| > size {
      var n := |ChunksOf(data[size..], size)|;
      ChunkCount(data[size..], size);
      assert (n + 1) * size == n * size + size;
    }
  }

  /** Chunk `j` starts at byte `j * size` of the data. */
  lemma {:induction false} ChunkAt(data: seq<Byte>, size: nat, j: nat)
    requires size > 0 && j < |ChunksOf(data, size)|
    ensures j * size < |data|
    ensures ChunksOf(data, size)[j] == data[j * size .. Min(j * size + size, |data|)]
    decreases j
  {
    if j == 0 {
      assert ChunksOf(data, size)[0] == data[..Min(size, |data|)];
    } else {
      assert |data| > size;
      var rest := data[size..];
      assert ChunksOf(data, size) == [data[..size]] + ChunksOf(rest, size);
      ChunkAt(rest, size, j - 1);
      var a := (j - 1) * size;
      MulStep(j, size);
      var b := Min(a + size, |rest|);
      assert b + size == Min(j * size + size, |data|);
      forall k | 0 <= k < b - a
        ensures rest[a..b][k] == data[a + size..b + size][k]
      {
        assert rest[a..b][k] == rest[a + k] == data[size + a + k];
      }
    }
  }

  lemma MulStep(j: nat, size: nat)
    requires j > 0
    ensures (j - 1) * size + size == j * size
  {
  }
}
