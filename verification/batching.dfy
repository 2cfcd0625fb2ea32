/** The accumulate-and-flush loop that both batch backends run in
    `Transcribe` (backend_llamacpp.go:34-61, backend_mistral_batch.go:40-65):
    chunks are appended to `accum`; as soon as its length reaches the
    threshold it is sent and reset; when input closes (or the context ends,
    which is the same here) a non-empty remainder is sent once, and the
    method returns nil.

    The specification groups the chunks: each sent batch is the concatenation
    of one group, and a group is closed by the chunk that makes it reach the
    threshold. Sending a batch is the backend's `sendChunk`, given as the
    fragments it relays for that batch. */
module Batching {
  import opened Common

  /** A closed group: it reached the threshold, and only with its last chunk. */
  predicate Full(g: seq<Chunk>, threshold: int)
  {
    && g != []
    && |Flatten(g)| >= threshold
    && (|g| == 1 || |Flatten(g[..|g| - 1])| < threshold)
  }

  /** The groups sent so far and the group still accumulating, after the
      chunks received so far. */
  function Fold(chunks: seq<Chunk>, threshold: int): (r: (seq<seq<Chunk>>, seq<Chunk>))
    ensures Flatten(r.0) + r.1 == chunks
    ensures forall i :: 0 <= i < |r.0| ==> Full(r.0[i], threshold)
    ensures r.1 == [] || |Flatten(r.1)| < threshold
  {
    if chunks == [] then ([], [])
    else
      var init, c := chunks[..|chunks| - 1], chunks[|chunks| - 1];
      var (closed, open) := Fold(init, threshold);
      AddKeepsFold(closed, open, c, threshold);
      InitLast(chunks);
      Add((closed, open), c, threshold)
  }

  /** One chunk arriving: it joins the open group, which is closed if it now
      reaches the threshold. */
  function Add(prev: (seq<seq<Chunk>>, seq<Chunk>), c: Chunk, threshold: int): (seq<seq<Chunk>>, seq<Chunk>)
  {
    var grown := prev.1 + [c];
    if |Flatten(grown)| >= threshold then (prev.0 + [grown], []) else (prev.0, grown)
  }

  lemma AddKeepsFold(closed: seq<seq<Chunk>>, open: seq<Chunk>, c: Chunk, threshold: int)
    requires forall i :: 0 <= i < |closed| ==> Full(closed[i], threshold)
    requires open == [] || |Flatten(open)| < threshold
    ensures Flatten(Add((closed, open), c, threshold).0) + Add((closed, open), c, threshold).1
            == Flatten(closed) + open + [c]
    ensures forall i :: 0 <= i < |Add((closed, open), c, threshold).0| ==>
              Full(Add((closed, open), c, threshold).0[i], threshold)
    ensures Add((closed, open), c, threshold).1 == [] || |Flatten(Add((closed, open), c, threshold).1)| < threshold
  {
    var grown := open + [c];
    if |Flatten(grown)| >= threshold {
      FlattenAppend(closed, grown);
      assert grown[..|grown| - 1] == open;
      assert Full(grown, threshold);
      var gs := closed + [grown];
      forall i | 0 <= i < |gs|
        ensures Full(gs[i], threshold)
      {
        if i < |closed| {
          assert gs[i] == closed[i];
        }
      }
    }
  }

  /** The batch sent for each group. */
  function Joined(gs: seq<seq<Chunk>>): (r: seq<seq<Byte>>)
    ensures |r| == |gs| && forall i :: 0 <= i < |gs| ==> r[i] == Flatten(gs[i])
  {
    seq(|gs|, i requires 0 <= i < |gs| => Flatten(gs[i]))
  }

  /** Every batch `Transcribe` sends, in order: the full groups, then the
      remainder if it holds any bytes. */
  function Batches(chunks: seq<Chunk>, threshold: int): seq<seq<Byte>>
  {
    var (closed, open) := Fold(chunks, threshold);
    Joined(closed) + (if |Flatten(open)| > 0 then [Flatten(open)] else [])
  }

  lemma JoinedSnoc(gs: seq<seq<Chunk>>, g: seq<Chunk>)
    ensures Joined(gs + [g]) == Joined(gs) + [Flatten(g)]
  {
  }

  lemma {:induction false} FlattenJoined(gs: seq<seq<Chunk>>)
    ensures Flatten(Joined(gs)) == Flatten(Flatten(gs))
    decreases |gs|
  {
    if gs != [] {
      var init := gs[..|gs| - 1];
      var g := gs[|gs| - 1];
      assert gs == init + [g];
      FlattenJoined(init);
      JoinedSnoc(init, g);
      FlattenAppend(Joined(init), Flatten(g));
      FlattenAppend(init, g);
      FlattenConcat(Flatten(init), g);
    }
  }

  /** The batches carry exactly the received audio, in order: nothing is
      lost, duplicated or reordered. */
  lemma BatchesKeepAudio(chunks: seq<Chunk>, threshold: int)
    ensures Flatten(Batches(chunks, threshold)) == Flatten(chunks)
  {
    var (closed, open) := Fold(chunks, threshold);
    FlattenJoined(closed);
    FlattenConcat(Flatten(closed), open);
    if |Flatten(open)| > 0 {
      FlattenAppend(Joined(closed), Flatten(open));
    } else {
      assert Joined(closed) + [] == Joined(closed);
    }
  }

  /** Every batch but the last reached the threshold; the last either reached
      it or is the non-empty remainder below it; with a positive threshold no
      batch is empty. */
  lemma BatchSizes(chunks: seq<Chunk>, threshold: int)
    ensures var b := Batches(chunks, threshold);
            && (forall i :: 0 <= i < |b| - 1 ==> |b[i]| >= threshold)
            && (b != [] ==> |b[|b| - 1]| >= threshold || 0 < |b[|b| - 1]| < threshold)
            && (threshold > 0 ==> forall i :: 0 <= i < |b| ==> |b[i]| > 0)
  {
    var (closed, open) := Fold(chunks, threshold);
    var b := Batches(chunks, threshold);
    forall i | 0 <= i < |closed|
      ensures |b[i]| >= threshold
    {
      assert Full(closed[i], threshold);
    }
  }

  /** The texts relayed for a sequence of batches, in order. */
  function Relayed(batches: seq<seq<Byte>>, send: seq<Byte> -> seq<string>): seq<string>
  {
    if batches == [] then []
    else Relayed(batches[..|batches| - 1], send) + send(batches[|batches| - 1])
  }

  lemma RelayedSnoc(batches: seq<seq<Byte>>, b: seq<Byte>, send: seq<Byte> -> seq<string>)
    ensures Relayed(batches + [b], send) == Relayed(batches, send) + send(b)
  {
    assert (batches + [b])[..|batches|] == batches;
  }

  /** When `sendChunk` relays at most one fragment per batch, and never an
      empty one, the relayed stream has at most one fragment per batch and
      no empty fragment. */
  lemma {:induction false} RelayedShape(batches: seq<seq<Byte>>, send: seq<Byte> -> seq<string>)
    requires forall b :: |send(b)| <= 1
    requires forall b, k :: 0 <= k < |send(b)| ==> send(b)[k] != ""
    ensures |Relayed(batches, send)| <= |batches|
    ensures forall k :: 0 <= k < |Relayed(batches, send)| ==> Relayed(batches, send)[k] != ""
    decreases |batches|
  {
    if batches != [] {
      RelayedShape(batches[..|batches| - 1], send);
    }
  }

  /** One more chunk, as the specification sees it. */
  lemma FoldStep(chunks: seq<Chunk>, i: nat, threshold: int)
    requires i < |chunks|
    ensures var (closed, open) := Fold(chunks[..i], threshold);
            var grown := open + [chunks[i]];
            Fold(chunks[..i + 1], threshold)
            == if |Flatten(grown)| >= threshold then (closed + [grown], []) else (closed, grown)
  {
    assert chunks[..i + 1][..i] == chunks[..i];
    assert Fold(chunks[..i + 1], threshold) == Add(Fold(chunks[..i], threshold), chunks[i], threshold);
  }

  lemma BatchesOf(chunks: seq<Chunk>, threshold: int)
    ensures Batches(chunks, threshold)
            == Joined(Fold(chunks, threshold).0)
               + (if |Flatten(Fold(chunks, threshold).1)| > 0 then [Flatten(Fold(chunks, threshold).1)] else [])
  {
  }

  /** The `Transcribe` loop of a batch backend. `send` is `sendChunk`: the
      fragments it relays for one batch (its request failures are only
      logged). The result is the error `Transcribe` returns, always nil. */
  method Transcribe(chunks: seq<Chunk>, threshold: int, send: seq<Byte> -> seq<string>)
    returns (batches: seq<seq<Byte>>, texts: seq<string>, err: Option<string>)
    ensures batches == Batches(chunks, threshold)
    ensures texts == Relayed(batches, send)
    ensures err == None
  {
    batches, texts, err := [], [], None;
    var accum: seq<Byte> := [];
    ghost var closed: seq<seq<Chunk>> := [];
    ghost var open: seq<Chunk> := [];
    var i := 0;
    while i < |chunks|
      invariant 0 <= i <= |chunks|
      invariant Fold(chunks[..i], threshold).0 == closed && Fold(chunks[..i], threshold).1 == open
      invariant accum == Flatten(open)
      invariant batches == Joined(closed)
      invariant texts == Relayed(batches, send)
    {
      FoldStep(chunks, i, threshold);
      var c := chunks[i];
      accum := accum + c;
      FlattenAppend(open, c);
      open := open + [c];
      if |accum| >= threshold {
        RelayedSnoc(batches, accum, send);
        JoinedSnoc(closed, open);
        texts := texts + send(accum);
        batches := batches + [accum];
        closed, open := closed + [open], [];
        accum := [];
      }
      i := i + 1;
    }
    assert chunks[..i] == chunks;
    BatchesOf(chunks, threshold);
    if |accum| > 0 {
      RelayedSnoc(batches, accum, send);
      texts := texts + send(accum);
      batches := batches + [accum];
    }
  }
}
