/** The voice-activity segmenter of vad.go: a three-state machine that turns the
    ordered stream of PCM chunks into a sequence of non-overlapping bursts, each
    opened at speech onset with the pre-buffered quiet chunks in front of it and
    closed after a run of trailing quiet chunks.

    Channels are sequences: the chunks read from the recorder are `chunks`, the
    bursts handed to the session manager are `bursts` (the last one is still
    being filled while `open`). Cancellation and end of input are both the end
    of `chunks`. Loudness (`rmsEnergy(chunk) >= Threshold`, a float comparison)
    is the abstract predicate `loud`. */
module Vad {
  import opened Common

  /** The segmenter's states (vad.go:49-54). */
  datatype Phase = Silent | Speaking | Trailing

  /** The VAD part of the audio configuration; the float threshold is replaced
      by the loudness predicate. A negative pre-buffer size makes Go's `make`
      panic and is excluded by the type. */
  datatype VadConfig = VadConfig(enabled: bool, preBufferN: nat, trailChunks: int)

  /** The segmenter's abstract state: the machine state, the trailing
      countdown, whether a burst is open (`burst != nil`), the quiet chunks held
      in the pre-buffer ring oldest first, and every burst handed out so far. */
  datatype Seg = Seg(phase: Phase, trailLeft: int, open: bool,
                     pending: seq<Chunk>, bursts: seq<seq<Chunk>>)

  function Init(): Seg
  {
    Seg(Silent, 0, false, [], [])
  }

  /** `emit`: a chunk goes into the open burst; with no burst it is dropped. */
  function EmitSpec(s: Seg, c: Chunk): Seg
  {
    if s.open && |s.bursts| > 0 then s.(bursts := AppendToLast(s.bursts, c)) else s
  }

  /** One turn of the per-chunk switch (vad.go:128-162). */
  function StepSpec(cfg: VadConfig, s: Seg, c: Chunk, loud: bool): Seg
  {
    match s.phase
    case Silent =>
      if loud then Seg(Speaking, s.trailLeft, true, [], s.bursts + [s.pending + [c]])
      else s.(pending := LastN(s.pending + [c], cfg.preBufferN))
    case Speaking =>
      var e := EmitSpec(s, c);
      if loud then e else e.(phase := Trailing, trailLeft := cfg.trailChunks)
    case Trailing =>
      var e := EmitSpec(s, c);
      if loud then e.(phase := Speaking)
      else if s.trailLeft - 1 <= 0 then e.(phase := Silent, trailLeft := s.trailLeft - 1, open := false)
      else e.(trailLeft := s.trailLeft - 1)
  }

  /** The state after feeding `xs` in order, starting from `s`. */
  function Run(cfg: VadConfig, loud: Chunk -> bool, s: Seg, xs: seq<Chunk>): Seg
  {
    if xs == [] then s
    else
      var c := xs[|xs| - 1];
      StepSpec(cfg, Run(cfg, loud, s, xs[..|xs| - 1]), c, loud(c))
  }

  /** End of input or cancellation closes the open burst (vad.go:113-126). */
  function Finish(s: Seg): Seg
  {
    s.(open := false)
  }

  /** The bursts produced for the whole input. With VAD disabled there is one
      burst mirroring the input (vad.go:19-43). */
  function Segment(cfg: VadConfig, loud: Chunk -> bool, chunks: seq<Chunk>): seq<seq<Chunk>>
  {
    if cfg.enabled then Finish(Run(cfg, loud, Init(), chunks)).bursts else [chunks]
  }

  /** The loud chunks of `xs`, in order. */
  function LoudOnly(loud: Chunk -> bool, xs: seq<Chunk>): seq<Chunk>
  {
    if xs == [] then []
    else LoudOnly(loud, xs[..|xs| - 1]) + (if loud(xs[|xs| - 1]) then [xs[|xs| - 1]] else [])
  }

  lemma LoudOnlySnoc(loud: Chunk -> bool, xs: seq<Chunk>, c: Chunk)
    ensures LoudOnly(loud, xs + [c]) == LoudOnly(loud, xs) + (if loud(c) then [c] else [])
  {
    assert (xs + [c])[..|xs|] == xs;
  }

  lemma {:induction false} LoudOnlyConcat(loud: Chunk -> bool, xs: seq<Chunk>, ys: seq<Chunk>)
    ensures LoudOnly(loud, xs + ys) == LoudOnly(loud, xs) + LoudOnly(loud, ys)
    decreases |ys|
  {
    if ys == [] {
      assert xs + ys == xs;
    } else {
      var init := ys[..|ys| - 1];
      var c := ys[|ys| - 1];
      assert ys == init + [c];
      assert xs + ys == (xs + init) + [c];
      LoudOnlyConcat(loud, xs, init);
      LoudOnlySnoc(loud, xs + init, c);
      LoudOnlySnoc(loud, init, c);
    }
  }

  lemma {:induction false} LoudOnlyAllQuiet(loud: Chunk -> bool, xs: seq<Chunk>)
    requires forall i :: 0 <= i < |xs| ==> !loud(xs[i])
    ensures LoudOnly(loud, xs) == []
    decreases |xs|
  {
    if xs != [] {
      LoudOnlyAllQuiet(loud, xs[..|xs| - 1]);
    }
  }

  /** The invariant the segmenter keeps over any input `xs` it has consumed. */
  ghost predicate Inv(cfg: VadConfig, loud: Chunk -> bool, s: Seg, xs: seq<Chunk>)
  {
    && (s.phase != Silent <==> s.open)
    && (s.open ==> |s.bursts| > 0)
    && (s.phase != Silent ==> s.pending == [])
    && |s.pending| <= cfg.preBufferN
    && (forall i :: 0 <= i < |s.pending| ==> !loud(s.pending[i]))
    && (forall i :: 0 <= i < |s.bursts| ==> LoudOnly(loud, s.bursts[i]) != [])
    && LoudOnly(loud, Flatten(s.bursts)) == LoudOnly(loud, xs)
    && IsSubseq(Flatten(s.bursts) + s.pending, xs)
  }

  lemma OnsetKeepsInv(cfg: VadConfig, loud: Chunk -> bool, s: Seg, xs: seq<Chunk>, c: Chunk)
    requires Inv(cfg, loud, s, xs) && s.phase == Silent && loud(c)
    ensures Inv(cfg, loud, StepSpec(cfg, s, c, true), xs + [c])
  {
    var b := s.pending + [c];
    assert StepSpec(cfg, s, c, true) == Seg(Speaking, s.trailLeft, true, [], s.bursts + [b]);
    OnsetContent(loud, s.bursts, s.pending, xs, c);
    LoudOnlySnoc(loud, s.pending, c);
    LoudOnlyAllQuiet(loud, s.pending);
    EveryBurstLoudSnoc(loud, s.bursts, b);
    assert Flatten(s.bursts + [b]) + [] == Flatten(s.bursts + [b]);
  }

  /** The burst opened at speech onset carries the pre-buffer and the loud
      chunk: the loud chunks and the order are kept. */
  lemma OnsetContent(loud: Chunk -> bool, bursts: seq<seq<Chunk>>, pending: seq<Chunk>, xs: seq<Chunk>, c: Chunk)
    requires forall i :: 0 <= i < |pending| ==> !loud(pending[i])
    requires LoudOnly(loud, Flatten(bursts)) == LoudOnly(loud, xs)
    requires IsSubseq(Flatten(bursts) + pending, xs)
    ensures LoudOnly(loud, Flatten(bursts + [pending + [c]])) == LoudOnly(loud, xs + [c])
    ensures IsSubseq(Flatten(bursts + [pending + [c]]), xs + [c])
  {
    var fb := Flatten(bursts);
    FlattenAppend(bursts, pending + [c]);
    assert fb + (pending + [c]) == (fb + pending) + [c];
    LoudOnlySnoc(loud, xs, c);
    LoudOnlySnoc(loud, fb + pending, c);
    LoudOnlyConcat(loud, fb, pending);
    LoudOnlyAllQuiet(loud, pending);
    assert LoudOnly(loud, fb) + [] == LoudOnly(loud, fb);
    SubseqSnoc(fb + pending, xs, c);
  }

  /** Adding a burst with a loud chunk keeps every burst holding one. */
  lemma EveryBurstLoudSnoc(loud: Chunk -> bool, bursts: seq<seq<Chunk>>, b: seq<Chunk>)
    requires forall i :: 0 <= i < |bursts| ==> LoudOnly(loud, bursts[i]) != []
    requires LoudOnly(loud, b) != []
    ensures forall i :: 0 <= i < |bursts + [b]| ==> LoudOnly(loud, (bursts + [b])[i]) != []
  {
    forall i | 0 <= i < |bursts + [b]|
      ensures LoudOnly(loud, (bursts + [b])[i]) != []
    {
      if i < |bursts| {
        assert (bursts + [b])[i] == bursts[i];
      }
    }
  }

  lemma QuietSilentKeepsInv(cfg: VadConfig, loud: Chunk -> bool, s: Seg, xs: seq<Chunk>, c: Chunk)
    requires Inv(cfg, loud, s, xs) && s.phase == Silent && !loud(c)
    ensures Inv(cfg, loud, StepSpec(cfg, s, c, false), xs + [c])
  {
    var q := LastN(s.pending + [c], cfg.preBufferN);
    assert StepSpec(cfg, s, c, false) == s.(pending := q);
    LoudOnlySnoc(loud, xs, c);
    SubseqKeepRecent(Flatten(s.bursts), s.pending, xs, c, cfg.preBufferN);
    RecentStayQuiet(loud, s.pending, c, cfg.preBufferN);
  }

  /** Keeping the most recent of quiet chunks keeps only quiet chunks. */
  lemma RecentStayQuiet(loud: Chunk -> bool, pending: seq<Chunk>, c: Chunk, n: nat)
    requires forall i :: 0 <= i < |pending| ==> !loud(pending[i])
    requires !loud(c)
    ensures forall i :: 0 <= i < |LastN(pending + [c], n)| ==> !loud(LastN(pending + [c], n)[i])
  {
    var p := pending + [c];
    var q := LastN(p, n);
    forall i | 0 <= i < |q|
      ensures !loud(q[i])
    {
      assert q[i] == p[|p| - |q| + i];
    }
  }

  lemma OpenStepKeepsInv(cfg: VadConfig, loud: Chunk -> bool, s: Seg, xs: seq<Chunk>, c: Chunk)
    requires Inv(cfg, loud, s, xs) && s.phase != Silent
    ensures Inv(cfg, loud, StepSpec(cfg, s, c, loud(c)), xs + [c])
  {
    var s' := StepSpec(cfg, s, c, loud(c));
    assert s'.bursts == AppendToLast(s.bursts, c) && s'.pending == [];
    assert s'.phase != Silent <==> s'.open;
    OpenContent(loud, s.bursts, xs, c);
    EveryBurstLoudAppend(loud, s.bursts, c);
  }

  /** A chunk added to the open burst keeps the loud chunks and the order. */
  lemma OpenContent(loud: Chunk -> bool, bursts: seq<seq<Chunk>>, xs: seq<Chunk>, c: Chunk)
    requires |bursts| > 0
    requires LoudOnly(loud, Flatten(bursts)) == LoudOnly(loud, xs)
    requires IsSubseq(Flatten(bursts) + [], xs)
    ensures LoudOnly(loud, Flatten(AppendToLast(bursts, c))) == LoudOnly(loud, xs + [c])
    ensures IsSubseq(Flatten(AppendToLast(bursts, c)) + [], xs + [c])
  {
    var fb := Flatten(bursts);
    assert Flatten(AppendToLast(bursts, c)) + [] == fb + [c];
    assert fb + [] == fb;
    LoudOnlySnoc(loud, xs, c);
    LoudOnlySnoc(loud, fb, c);
    SubseqSnoc(fb, xs, c);
  }

  /** Growing the last burst keeps every burst holding a loud chunk. */
  lemma EveryBurstLoudAppend(loud: Chunk -> bool, bursts: seq<seq<Chunk>>, c: Chunk)
    requires |bursts| > 0
    requires forall i :: 0 <= i < |bursts| ==> LoudOnly(loud, bursts[i]) != []
    ensures forall i :: 0 <= i < |bursts| ==> LoudOnly(loud, AppendToLast(bursts, c)[i]) != []
  {
    var r := AppendToLast(bursts, c);
    var n := |bursts| - 1;
    forall i | 0 <= i < |bursts|
      ensures LoudOnly(loud, r[i]) != []
    {
      if i == n {
        LoudOnlySnoc(loud, bursts[n], c);
      } else {
        assert r[i] == r[..n][i];
      }
    }
  }

  lemma StepKeepsInv(cfg: VadConfig, loud: Chunk -> bool, s: Seg, xs: seq<Chunk>, c: Chunk)
    requires Inv(cfg, loud, s, xs)
    ensures Inv(cfg, loud, StepSpec(cfg, s, c, loud(c)), xs + [c])
  {
    if s.phase != Silent {
      OpenStepKeepsInv(cfg, loud, s, xs, c);
    } else if loud(c) {
      OnsetKeepsInv(cfg, loud, s, xs, c);
    } else {
      QuietSilentKeepsInv(cfg, loud, s, xs, c);
    }
  }

  lemma {:induction false} RunKeepsInv(cfg: VadConfig, loud: Chunk -> bool, xs: seq<Chunk>)
    ensures Inv(cfg, loud, Run(cfg, loud, Init(), xs), xs)
    decreases |xs|
  {
    if xs == [] {
      assert Flatten(Init().bursts) + Init().pending == [];
    } else {
      var init, c := xs[..|xs| - 1], xs[|xs| - 1];
      assert xs == init + [c];
      var s := Run(cfg, loud, Init(), init);
      assert Run(cfg, loud, Init(), xs) == StepSpec(cfg, s, c, loud(c));
      RunKeepsInv(cfg, loud, init);
      StepKeepsInv(cfg, loud, s, init, c);
    }
  }

  /** With VAD enabled nothing loud is ever lost or reordered: the loud chunks
      of all bursts, in order, are exactly the loud chunks of the input; the
      bursts together are an order-preserving selection of the input (only
      quiet chunks evicted from the pre-buffer are dropped); and every burst
      contains the loud chunk that opened it. */
  lemma SegmentKeepsEveryLoudChunk(cfg: VadConfig, loud: Chunk -> bool, chunks: seq<Chunk>)
    requires cfg.enabled
    ensures LoudOnly(loud, Flatten(Segment(cfg, loud, chunks))) == LoudOnly(loud, chunks)
    ensures IsSubseq(Flatten(Segment(cfg, loud, chunks)), chunks)
    ensures forall i :: 0 <= i < |Segment(cfg, loud, chunks)| ==>
              LoudOnly(loud, Segment(cfg, loud, chunks)[i]) != []
  {
    var s := Run(cfg, loud, Init(), chunks);
    RunKeepsInv(cfg, loud, chunks);
    SubseqGrow(Flatten(s.bursts), s.pending);
    SubseqTrans(Flatten(s.bursts), Flatten(s.bursts) + s.pending, chunks);
  }

  /** While silent, quiet chunks only go into the pre-buffer, which keeps the
      `preBufferN` most recent of them, oldest first (vad.go:61-72, 140-142). */
  lemma {:induction false} QuietWhileSilentBuffersRecent(cfg: VadConfig, loud: Chunk -> bool, s: Seg, q: seq<Chunk>)
    requires s.phase == Silent && |s.pending| <= cfg.preBufferN
    requires forall i :: 0 <= i < |q| ==> !loud(q[i])
    ensures Run(cfg, loud, s, q) == s.(pending := LastN(s.pending + q, cfg.preBufferN))
    decreases |q|
  {
    if q == [] {
      assert s.pending + q == s.pending;
    } else {
      var init, c := q[..|q| - 1], q[|q| - 1];
      assert q == init + [c];
      var r := Run(cfg, loud, s, init);
      assert Run(cfg, loud, s, q) == StepSpec(cfg, r, c, loud(c));
      QuietWhileSilentBuffersRecent(cfg, loud, s, init);
      assert StepSpec(cfg, r, c, false) == r.(pending := LastN(r.pending + [c], cfg.preBufferN));
      LastNAppend(s.pending + init, c, cfg.preBufferN);
      assert s.pending + q == (s.pending + init) + [c];
    }
  }

  /** Speech onset after any run of quiet chunks: the new burst starts with the
      pre-buffered quiet chunks, oldest first (the most recent `preBufferN` of
      them), followed by the loud chunk; the ring is then empty
      (vad.go:74-101, 131-139). */
  lemma SpeechOnsetFlushesPreBuffer(cfg: VadConfig, loud: Chunk -> bool, s: Seg, q: seq<Chunk>, c: Chunk)
    requires s.phase == Silent && |s.pending| <= cfg.preBufferN
    requires forall i :: 0 <= i < |q| ==> !loud(q[i])
    requires loud(c)
    ensures Run(cfg, loud, s, q + [c])
            == Seg(Speaking, s.trailLeft, true, [], s.bursts + [LastN(s.pending + q, cfg.preBufferN) + [c]])
  {
    QuietWhileSilentBuffersRecent(cfg, loud, s, q);
    assert (q + [c])[..|q|] == q;
  }

  /** Appends every element of `q` to the last sequence of `xss`. */
  function AppendAll<T>(xss: seq<seq<T>>, q: seq<T>): seq<seq<T>>
    requires |xss| > 0
  {
    xss[..|xss| - 1] + [xss[|xss| - 1] + q]
  }

  lemma AppendAllSnoc<T>(xss: seq<seq<T>>, q: seq<T>, x: T)
    requires |xss| > 0
    ensures AppendAll(xss, q + [x]) == AppendToLast(AppendAll(xss, q), x)
  {
    var ys := AppendAll(xss, q);
    assert ys[..|ys| - 1] == xss[..|xss| - 1];
    assert xss[|xss| - 1] + (q + [x]) == (xss[|xss| - 1] + q) + [x];
  }

  /** Number of consecutive quiet chunks a burst survives: the countdown is set
      to `trailChunks` on the first quiet chunk and tested only from the second
      one on, so values below 1 behave like 1. */
  function Hangover(cfg: VadConfig): nat
  {
    if cfg.trailChunks >= 1 then cfg.trailChunks else 1
  }

  /** From speaking, quiet chunks are all emitted into the open burst; the burst
      stays open (trailing, countdown running) through the first `Hangover`
      of them and closes on the next one, which is still emitted
      (vad.go:143-161). */
  lemma {:induction false} TrailingClosesBurst(cfg: VadConfig, loud: Chunk -> bool, s: Seg, q: seq<Chunk>)
    requires s.phase == Speaking && s.open && |s.bursts| > 0
    requires forall i :: 0 <= i < |q| ==> !loud(q[i])
    requires 1 <= |q| <= Hangover(cfg) + 1
    ensures Run(cfg, loud, s, q).bursts == AppendAll(s.bursts, q)
    ensures |q| <= Hangover(cfg) ==>
              && Run(cfg, loud, s, q).phase == Trailing
              && Run(cfg, loud, s, q).open
              && Run(cfg, loud, s, q).trailLeft == cfg.trailChunks - (|q| - 1)
    ensures |q| == Hangover(cfg) + 1 ==>
              Run(cfg, loud, s, q).phase == Silent && !Run(cfg, loud, s, q).open
    decreases |q|
  {
    var init := q[..|q| - 1];
    var c := q[|q| - 1];
    if |q| == 1 {
      assert init == [] && q == [c];
      assert AppendAll(s.bursts, q) == AppendToLast(s.bursts, c);
    } else {
      assert q == init + [c];
      TrailingClosesBurst(cfg, loud, s, init);
      var r := Run(cfg, loud, s, init);
      assert Run(cfg, loud, s, q) == StepSpec(cfg, r, c, false);
      assert AppendAll(s.bursts, q) == AppendToLast(r.bursts, c) by {
        assert r.bursts[..|r.bursts| - 1] == s.bursts[..|s.bursts| - 1];
        assert s.bursts[|s.bursts| - 1] + q == (s.bursts[|s.bursts| - 1] + init) + [c];
      }
    }
  }

  /** The two facts about open bursts every step preserves. */
  predicate Consistent(s: Seg)
  {
    (s.phase != Silent <==> s.open) && (s.open ==> |s.bursts| > 0)
  }

  lemma {:induction false} RunConsistent(cfg: VadConfig, loud: Chunk -> bool, s: Seg, xs: seq<Chunk>)
    requires Consistent(s)
    ensures Consistent(Run(cfg, loud, s, xs))
    decreases |xs|
  {
    if xs != [] {
      var init, c := xs[..|xs| - 1], xs[|xs| - 1];
      assert xs == init + [c];
      assert Run(cfg, loud, s, xs) == StepSpec(cfg, Run(cfg, loud, s, init), c, loud(c));
      RunConsistent(cfg, loud, s, init);
    }
  }

  /** A step with a burst open appends the chunk to it, whatever its loudness. */
  lemma OpenStepAppends(cfg: VadConfig, r: Seg, c: Chunk, isLoud: bool)
    requires Consistent(r) && r.open
    ensures StepSpec(cfg, r, c, isLoud).bursts == AppendToLast(r.bursts, c)
  {
  }

  /** The burst is open before each chunk of `xs` arrives. */
  ghost predicate OpenThroughout(cfg: VadConfig, loud: Chunk -> bool, s: Seg, xs: seq<Chunk>)
    decreases |xs|
  {
    xs == [] || (OpenThroughout(cfg, loud, s, xs[..|xs| - 1]) && Run(cfg, loud, s, xs[..|xs| - 1]).open)
  }

  /** While a burst stays open, every chunk, loud or quiet, goes into it in
      arrival order and no other burst is opened (vad.go:143-161). */
  lemma {:induction false} OpenBurstReceivesEveryChunk(cfg: VadConfig, loud: Chunk -> bool, s: Seg, xs: seq<Chunk>)
    requires Consistent(s) && s.open
    requires OpenThroughout(cfg, loud, s, xs)
    ensures Run(cfg, loud, s, xs).bursts == AppendAll(s.bursts, xs)
    decreases |xs|
  {
    if xs == [] {
      var n := |s.bursts|;
      assert s.bursts[n - 1] + xs == s.bursts[n - 1];
      assert s.bursts[..n - 1] + [s.bursts[n - 1]] == s.bursts;
    } else {
      var init, c := xs[..|xs| - 1], xs[|xs| - 1];
      assert xs == init + [c];
      var r := Run(cfg, loud, s, init);
      assert Run(cfg, loud, s, xs) == StepSpec(cfg, r, c, loud(c));
      OpenBurstReceivesEveryChunk(cfg, loud, s, init);
      RunConsistent(cfg, loud, s, init);
      OpenStepAppends(cfg, r, c, loud(c));
      AppendAllSnoc(s.bursts, init, c);
    }
  }

  /** Bursts never overlap: a burst that has been closed is never changed
      again, and only the open burst (the last one) grows; new bursts are only
      ever added at the end (vad.go:103-111, 131-139, 155-159). */
  lemma {:induction false} ClosedBurstsAreFrozen(cfg: VadConfig, loud: Chunk -> bool, s: Seg, xs: seq<Chunk>)
    ensures |Run(cfg, loud, s, xs).bursts| >= |s.bursts|
    ensures forall i :: 0 <= i < |s.bursts| - 1 ==> Run(cfg, loud, s, xs).bursts[i] == s.bursts[i]
    ensures !s.open ==> forall i :: 0 <= i < |s.bursts| ==> Run(cfg, loud, s, xs).bursts[i] == s.bursts[i]
    ensures !s.open && Run(cfg, loud, s, xs).open ==> |Run(cfg, loud, s, xs).bursts| > |s.bursts|
    decreases |xs|
  {
    if xs != [] {
      var init, c := xs[..|xs| - 1], xs[|xs| - 1];
      assert xs == init + [c];
      ClosedBurstsAreFrozen(cfg, loud, s, init);
      var r := Run(cfg, loud, s, init);
      var r' := Run(cfg, loud, s, xs);
      assert r' == StepSpec(cfg, r, c, loud(c));
      if r.phase != Silent && r.open && |r.bursts| > 0 {
        assert r'.bursts == AppendToLast(r.bursts, c);
        assert forall i :: 0 <= i < |r.bursts| - 1 ==> r'.bursts[i] == r.bursts[i];
      }
    }
  }

  /** The slots of a ring holding `s`: every element present (non-nil). */
  function Wrap(s: seq<Chunk>): (r: seq<Option<Chunk>>)
    ensures |r| == |s| && forall i :: 0 <= i < |s| ==> r[i] == Some(s[i])
  {
    seq(|s|, i requires 0 <= i < |s| => Some(s[i]))
  }

  /** The slot `(start + i) % n` of the ring flush: it wraps at most once. */
  function Slot(start: nat, i: nat, n: nat): (k: nat)
    requires start < n && i < n
    ensures k < n && k == (start + i) % n
  {
    if start + i < n then start + i
    else
      WrapOnce(start + i, n);
      start + i - n
  }

  /** The slots a flush of `n` chunks from slot `start` reads, in a ring of
      `len` slots. */
  function FlushSlots(start: nat, n: nat, len: nat): (r: set<nat>)
    requires n <= len && (n > 0 ==> start < len)
    ensures forall j :: 0 <= j < n ==> Slot(start, j, len) in r
    ensures forall k :: k in r ==> k < len
  {
    set j | 0 <= j < n :: Slot(start, j, len)
  }

  /** Reading one more slot adds exactly that slot. */
  lemma FlushSlotsSnoc(start: nat, n: nat, len: nat)
    requires n < len && start < len
    ensures FlushSlots(start, n + 1, len) == FlushSlots(start, n, len) + {Slot(start, n, len)}
  {
  }

  /** `ring` after the first `i` slots of a flush from `start` are set to
      nil. */
  function Cleared(ring: seq<Option<Chunk>>, start: nat, i: nat): (r: seq<Option<Chunk>>)
    requires i <= |ring| && (i > 0 ==> start < |ring|)
    ensures |r| == |ring|
  {
    if i == 0 then ring else Cleared(ring, start, i - 1)[Slot(start, i - 1, |ring|) := None]
  }

  /** A flush clears exactly the slots it reads. */
  lemma {:induction false} ClearedAt(ring: seq<Option<Chunk>>, start: nat, i: nat)
    requires i <= |ring| && (i > 0 ==> start < |ring|)
    ensures forall k :: 0 <= k < |ring| ==>
              Cleared(ring, start, i)[k] == if k in FlushSlots(start, i, |ring|) then None else ring[k]
    decreases i
  {
    if i > 0 {
      ClearedAt(ring, start, i - 1);
      FlushSlotsSnoc(start, i - 1, |ring|);
    }
  }

  /** A slot the flush has not reached yet still holds what it held. */
  lemma {:induction false} ClearedUntouched(ring: seq<Option<Chunk>>, start: nat, i: nat, m: nat)
    requires i <= m < |ring| && start < |ring|
    ensures Cleared(ring, start, i)[Slot(start, m, |ring|)] == ring[Slot(start, m, |ring|)]
    decreases i
  {
    if i > 0 {
      ClearedUntouched(ring, start, i - 1, m);
      assert Slot(start, i - 1, |ring|) != Slot(start, m, |ring|);
    }
  }

  lemma WrapOnce(x: nat, n: nat)
    requires n <= x < 2 * n
    ensures x % n == x - n
  {
    var q := x - n;
    assert x == n + q && 0 <= q < n;
  }

  /** The slots of `ring` read oldest first, given the write cursor `pos` and
      whether the ring has wrapped. */
  function View(ring: seq<Option<Chunk>>, pos: nat, full: bool): seq<Option<Chunk>>
    requires pos <= |ring|
  {
    if full then ring[pos..] + ring[..pos] else ring[..pos]
  }

  /** The slots a flush reads, oldest first, hold the quiet chunks the ring
      view shows. */
  lemma ViewSlots(ring: seq<Option<Chunk>>, pos: nat, full: bool, pending: seq<Chunk>)
    requires |ring| > 0 ==> pos < |ring|
    requires |ring| == 0 ==> pos == 0 && !full
    requires View(ring, pos, full) == Wrap(pending)
    ensures |pending| == if full then |ring| else pos
    ensures forall j :: 0 <= j < |pending| ==>
              ring[Slot(if full then pos else 0, j, |ring|)] == Some(pending[j])
  {
    var view := View(ring, pos, full);
    forall j | 0 <= j < |pending|
      ensures ring[Slot(if full then pos else 0, j, |ring|)] == Some(pending[j])
    {
      assert view[j] == Some(pending[j]);
    }
  }

  /** Writing at the cursor and advancing it keeps the most recent `|ring|`
      chunks, oldest first. */
  lemma RingWriteView(ring: seq<Option<Chunk>>, pos: nat, full: bool, pending: seq<Chunk>, c: Chunk)
    requires 0 <= pos < |ring|
    requires View(ring, pos, full) == Wrap(pending)
    ensures View(ring[pos := Some(c)], if pos + 1 >= |ring| then 0 else pos + 1, full || pos + 1 >= |ring|)
            == Wrap(LastN(pending + [c], |ring|))
  {
    if full {
      RingWriteViewFull(ring, pos, pending, c);
    } else {
      RingWriteViewFilling(ring, pos, pending, c);
    }
  }

  lemma RingWriteViewFilling(ring: seq<Option<Chunk>>, pos: nat, pending: seq<Chunk>, c: Chunk)
    requires 0 <= pos < |ring|
    requires ring[..pos] == Wrap(pending)
    ensures View(ring[pos := Some(c)], if pos + 1 >= |ring| then 0 else pos + 1, pos + 1 >= |ring|)
            == Wrap(LastN(pending + [c], |ring|))
  {
    var r := ring[pos := Some(c)];
    assert LastN(pending + [c], |ring|) == pending + [c];
    assert r[..pos + 1] == ring[..pos] + [Some(c)];
    if pos + 1 >= |ring| {
      assert r[0..] + r[..0] == r[..pos + 1];
    }
  }

  lemma RingWriteViewFull(ring: seq<Option<Chunk>>, pos: nat, pending: seq<Chunk>, c: Chunk)
    requires 0 <= pos < |ring|
    requires ring[pos..] + ring[..pos] == Wrap(pending)
    ensures View(ring[pos := Some(c)], if pos + 1 >= |ring| then 0 else pos + 1, true)
            == Wrap(LastN(pending + [c], |ring|))
  {
    var r := ring[pos := Some(c)];
    var n := |ring|;
    assert |pending| == n;
    assert LastN(pending + [c], n) == pending[1..] + [c];
    assert Wrap(pending[1..] + [c]) == Wrap(pending)[1..] + [Some(c)];
    assert Wrap(pending)[1..] == ring[pos + 1..] + ring[..pos];
    if pos + 1 < n {
      assert r[pos + 1..] == ring[pos + 1..];
      assert r[..pos + 1] == ring[..pos] + [Some(c)];
    } else {
      assert r[0..] + r[..0] == ring[..pos] + [Some(c)];
    }
  }

  /** The segmenter goroutine of vad.go:46-165, with its local variables as
      fields: the machine state, the trailing countdown, the open burst, and the
      pre-buffer `ring` with its `ringPos`/`ringFull` cursors. `bursts` is what
      has been sent on the bursts channel; the last element is the burst
      channel `burst` while `open`. */
  class Segmenter {
    const cfg: VadConfig
    const ring: array<Option<Chunk>>
    var ringPos: nat
    var ringFull: bool
    var phase: Phase
    var trailLeft: int
    var open: bool
    var bursts: seq<seq<Chunk>>
    /** The quiet chunks the ring holds, oldest first. */
    ghost var pending: seq<Chunk>

    /** The ring's slots read oldest first. */
    ghost predicate Valid()
      reads this, ring
    {
      && ring.Length == cfg.preBufferN
      && (ring.Length == 0 ==> ringPos == 0 && !ringFull)
      && (ring.Length > 0 ==> ringPos < ring.Length)
      && View(ring[..], ringPos, ringFull) == Wrap(pending)
      && (open ==> |bursts| > 0)
    }

    ghost function Snapshot(): Seg
      reads this
    {
      Seg(phase, trailLeft, open, pending, bursts)
    }

    constructor (cfg: VadConfig)
      ensures Valid() && fresh(ring)
      ensures this.cfg == cfg && Snapshot() == Init()
    {
      this.cfg := cfg;
      ring := new Option<Chunk>[cfg.preBufferN](_ => None);
      ringPos, ringFull := 0, false;
      phase, trailLeft, open, bursts := Silent, 0, false, [];
      pending := [];
    }

    /** The body of `pushRing` (vad.go:66-71): overwrite the slot at `ringPos`
        and advance it, wrapping to 0 and marking the ring full. */
    method WriteRing(c: Chunk)
      requires Valid() && ring.Length > 0
      modifies this, ring
      ensures Valid()
      ensures pending == LastN(old(pending) + [c], cfg.preBufferN)
      ensures phase == old(phase) && trailLeft == old(trailLeft)
      ensures open == old(open) && bursts == old(bursts)
    {
      ghost var before, pos, full := ring[..], ringPos, ringFull;
      ghost var kept := LastN(pending + [c], cfg.preBufferN);
      RingWriteView(before, pos, full, pending, c);
      ring[ringPos] := Some(c);
      assert ring[..] == before[pos := Some(c)];
      ringPos := ringPos + 1;
      if ringPos >= cfg.preBufferN {
        ringPos := 0;
        ringFull := true;
      }
      assert View(ring[..], ringPos, ringFull) == Wrap(kept);
      pending := kept;
    }

    /** `pushRing` exactly as written: with `PreBufferN = 0` the ring slice is
        empty and `ring[ringPos]` is out of range, which panics in Go. */
    method PushRingAsWritten(c: Chunk) returns (panics: bool)
      requires Valid()
      modifies this, ring
      ensures panics <==> cfg.preBufferN == 0
      ensures !panics ==> Valid() && pending == LastN(old(pending) + [c], cfg.preBufferN)
    {
      if ringPos >= ring.Length {
        return true;
      }
      WriteRing(c);
      panics := false;
    }

    /** `pushRing` with a zero-slot pre-buffer keeping nothing instead of
        panicking; otherwise identical. The ring keeps the `preBufferN` most
        recent quiet chunks, overwriting the oldest first. */
    method PushRing(c: Chunk)
      requires Valid()
      modifies this, ring
      ensures Valid()
      ensures pending == LastN(old(pending) + [c], cfg.preBufferN)
      ensures phase == old(phase) && trailLeft == old(trailLeft)
      ensures open == old(open) && bursts == old(bursts)
    {
      if ring.Length > 0 {
        WriteRing(c);
      }
    }

    /** `startBurst` (vad.go:74-101): hand out a new burst, flush the ring into
        it oldest first, clearing each slot, then reset the cursors. */
    method StartBurst()
      requires Valid()
      modifies this, ring
      ensures Valid()
      ensures bursts == old(bursts) + [old(pending)]
      ensures pending == [] && ringPos == 0 && !ringFull
      ensures phase == old(phase) && trailLeft == old(trailLeft) && open == old(open)
    {
      var flushed := FlushRing();
      bursts := bursts + [flushed];
      ringPos := 0;
      ringFull := false;
      pending := [];
    }

    /** The slot the flush reads first: the oldest one. */
    ghost function FlushStart(): nat
      reads this
    {
      if ringFull then ringPos else 0
    }

    /** The flush loop of `startBurst` (vad.go:83-97): `n` slots from the
        oldest, each non-nil one sent and cleared: every slot read is nil
        afterwards and every other slot keeps what it held. */
    method FlushRing() returns (flushed: seq<Chunk>)
      requires Valid()
      modifies ring
      ensures flushed == pending
      ensures |pending| <= ring.Length && (|pending| > 0 ==> FlushStart() < ring.Length)
      ensures ring[..] == Cleared(old(ring[..]), FlushStart(), |pending|)
      ensures forall k :: 0 <= k < ring.Length ==>
                ring[k] == if k in FlushSlots(FlushStart(), |pending|, ring.Length) then None else old(ring[k])
    {
      var n := if ringFull then cfg.preBufferN else ringPos;
      var start := if ringFull then ringPos else 0;
      ghost var before := ring[..];
      ViewSlots(before, ringPos, ringFull, pending);
      flushed := FlushFrom(start, n, pending);
      ClearedAt(before, start, n);
    }

    /** The loop of the flush (vad.go:90-96): slots `start`, `start + 1`, ...
        modulo the ring size, `n` of them, holding `expected` in that order. */
    method FlushFrom(start: nat, n: nat, ghost expected: seq<Chunk>) returns (flushed: seq<Chunk>)
      requires n <= ring.Length && (n > 0 ==> start < ring.Length) && |expected| == n
      requires forall j :: 0 <= j < n ==> ring[Slot(start, j, ring.Length)] == Some(expected[j])
      modifies ring
      ensures flushed == expected
      ensures ring[..] == Cleared(old(ring[..]), start, n)
    {
      ghost var before := ring[..];
      assert forall j :: 0 <= j < n ==> before[Slot(start, j, ring.Length)] == Some(expected[j]);
      flushed := [];
      var i := 0;
      while i < n
        invariant 0 <= i <= n <= ring.Length == |before|
        invariant flushed == expected[..i]
        invariant ring[..] == Cleared(before, start, i)
      {
        var idx := (start + i) % ring.Length;
        assert idx == Slot(start, i, ring.Length);
        ClearedUntouched(before, start, i, i);
        var c := TakeSlot(idx);
        if c != None {
          flushed := flushed + [c.value];
        }
        assert expected[..i + 1] == expected[..i] + [expected[i]];
        i := i + 1;
      }
      assert expected[..n] == expected;
    }

    /** One slot of the flush (vad.go:93-96): a non-nil slot is handed out
        and set to nil. */
    method TakeSlot(idx: nat) returns (c: Option<Chunk>)
      requires idx < ring.Length
      modifies ring
      ensures c == old(ring[idx])
      ensures ring[..] == old(ring[..])[idx := None]
    {
      c := None;
      if ring[idx] != None {
        c := ring[idx];
        ring[idx] := None;
      }
    }

    /** `emit`: into the open burst; a no-op when no burst is open. */
    method Emit(c: Chunk)
      requires Valid()
      modifies this
      ensures Valid()
      ensures Snapshot() == EmitSpec(old(Snapshot()), c)
    {
      if open {
        bursts := AppendToLast(bursts, c);
      }
    }

    /** One chunk through the silent / speaking / trailing switch. */
    method Step(c: Chunk, loud: bool)
      requires Valid()
      modifies this, ring
      ensures Valid()
      ensures Snapshot() == StepSpec(cfg, old(Snapshot()), c, loud)
    {
      match phase
      case Silent => OnSilent(c, loud);
      case Speaking => OnSpeaking(c, loud);
      case Trailing => OnTrailing(c, loud);
    }

    /** Silent: a loud chunk opens a burst and goes in after the flushed
        pre-buffer; a quiet one only enters the ring. */
    method OnSilent(c: Chunk, loud: bool)
      requires Valid() && phase == Silent
      modifies this, ring
      ensures Valid()
      ensures Snapshot() == StepSpec(cfg, old(Snapshot()), c, loud)
    {
      if loud {
        phase := Speaking;
        StartBurst();
        open := true;
        Emit(c);
      } else {
        PushRing(c);
      }
    }

    /** Speaking: every chunk is emitted; a quiet one starts the countdown. */
    method OnSpeaking(c: Chunk, loud: bool)
      requires Valid() && phase == Speaking
      modifies this
      ensures Valid()
      ensures Snapshot() == StepSpec(cfg, old(Snapshot()), c, loud)
    {
      Emit(c);
      if !loud {
        phase := Trailing;
        trailLeft := cfg.trailChunks;
      }
    }

    /** Trailing: every chunk is emitted; a loud one resumes speaking, a quiet
        one counts down and closes the burst when the count reaches zero. */
    method OnTrailing(c: Chunk, loud: bool)
      requires Valid() && phase == Trailing
      modifies this
      ensures Valid()
      ensures Snapshot() == StepSpec(cfg, old(Snapshot()), c, loud)
    {
      Emit(c);
      if loud {
        phase := Speaking;
      } else {
        trailLeft := trailLeft - 1;
        if trailLeft <= 0 {
          phase := Silent;
          open := false;
        }
      }
    }

    /** End of input or cancellation: close the open burst. */
    method Close()
      requires Valid()
      modifies this
      ensures Valid()
      ensures Snapshot() == Finish(old(Snapshot()))
    {
      if open {
        open := false;
      }
    }
  }

  /** The VAD-disabled path (vad.go:19-43): one burst that receives every
      input chunk, unchanged and in order. */
  method MirrorBurst(chunks: seq<Chunk>) returns (bursts: seq<seq<Chunk>>)
    ensures bursts == [chunks]
  {
    bursts := [[]];
    var i := 0;
    while i < |chunks|
      invariant 0 <= i <= |chunks|
      invariant bursts == [chunks[..i]]
    {
      bursts := AppendToLast(bursts, chunks[i]);
      assert chunks[..i + 1] == chunks[..i] + [chunks[i]];
      i := i + 1;
    }
    assert chunks[..i] == chunks;
  }

  /** `vadBursts`: the bursts for the whole input, each closed at the end. */
  method VadBursts(cfg: VadConfig, loud: Chunk -> bool, chunks: seq<Chunk>) returns (bursts: seq<seq<Chunk>>)
    ensures bursts == Segment(cfg, loud, chunks)
    ensures !cfg.enabled ==> bursts == [chunks]
    ensures cfg.enabled ==> LoudOnly(loud, Flatten(bursts)) == LoudOnly(loud, chunks)
    ensures cfg.enabled ==> IsSubseq(Flatten(bursts), chunks)
  {
    if !cfg.enabled {
      bursts := MirrorBurst(chunks);
      return;
    }
    var seg := new Segmenter(cfg);
    var i := 0;
    while i < |chunks|
      invariant 0 <= i <= |chunks|
      invariant seg.Valid() && seg.cfg == cfg
      invariant seg.Snapshot() == Run(cfg, loud, Init(), chunks[..i])
      modifies seg, seg.ring
    {
      seg.Step(chunks[i], loud(chunks[i]));
      assert chunks[..i + 1][..i] == chunks[..i];
      i := i + 1;
    }
    seg.Close();
    assert chunks[..i] == chunks;
    bursts := seg.bursts;
    SegmentKeepsEveryLoudChunk(cfg, loud, chunks);
  }

  /** The signed 16-bit value of a little-endian byte pair (vad.go:178). */
  function Int16(lo: Byte, hi: Byte): (v: int)
    ensures -32768 <= v < 32768
  {
    var u := lo + 256 * hi;
    if u >= 32768 then u - 65536 else u
  }

  /** The samples `rmsEnergy` reads: `len/2` of them, an odd trailing byte
      ignored (vad.go:172-178). */
  function Samples(pcm: Chunk): (r: seq<int>)
    ensures |r| == |pcm| / 2
    ensures forall i :: 0 <= i < |r| ==> IsSample(r[i])
  {
    if |pcm| < 2 then [] else [Int16(pcm[0], pcm[1])] + Samples(pcm[2..])
  }

  predicate IsSample(v: int)
  {
    -32768 <= v < 32768
  }

  /** The little-endian two's-complement encoding of one sample. */
  function EncodeSample(v: int): (r: seq<Byte>)
    requires IsSample(v)
    ensures |r| == 2
  {
    var u := if v < 0 then v + 65536 else v;
    [u % 256, u / 256]
  }

  function EncodeSamples(xs: seq<int>): (r: seq<Byte>)
    requires forall i :: 0 <= i < |xs| ==> IsSample(xs[i])
    ensures |r| == 2 * |xs|
  {
    if xs == [] then [] else EncodeSample(xs[0]) + EncodeSamples(xs[1..])
  }

  /** Decoding inverts encoding. */
  lemma {:induction false} SamplesRoundTrip(xs: seq<int>)
    requires forall i :: 0 <= i < |xs| ==> IsSample(xs[i])
    ensures Samples(EncodeSamples(xs)) == xs
    decreases |xs|
  {
    if xs != [] {
      var e := EncodeSamples(xs);
      assert e[2..] == EncodeSamples(xs[1..]);
      SamplesRoundTrip(xs[1..]);
    }
  }

  /** Encoding the decoded samples gives back the chunk without its odd
      trailing byte, if any. */
  lemma {:induction false} SamplesDropOddByte(pcm: Chunk)
    ensures EncodeSamples(Samples(pcm)) == pcm[..2 * (|pcm| / 2)]
    decreases |pcm|
  {
    if |pcm| >= 2 {
      SamplesDropOddByte(pcm[2..]);
      var lo, hi := pcm[0], pcm[1];
      assert EncodeSample(Int16(lo, hi)) == [lo, hi];
      assert pcm[..2 * (|pcm| / 2)] == [lo, hi] + pcm[2..][..2 * (|pcm[2..]| / 2)];
    }
  }

  lemma {:induction false} SampleAt(pcm: Chunk, i: nat)
    requires i < |pcm| / 2
    ensures Samples(pcm)[i] == Int16(pcm[2 * i], pcm[2 * i + 1])
    decreases i
  {
    if i > 0 {
      SampleAt(pcm[2..], i - 1);
    }
  }

  function SumSquares(xs: seq<int>): int
  {
    if xs == [] then 0 else SumSquares(xs[..|xs| - 1]) + xs[|xs| - 1] * xs[|xs| - 1]
  }

  /** The sum of squared samples is zero exactly for digital silence. */
  lemma {:induction false} SumSquaresZeroIffSilence(xs: seq<int>)
    ensures SumSquares(xs) >= 0
    ensures SumSquares(xs) == 0 <==> forall i :: 0 <= i < |xs| ==> xs[i] == 0
    decreases |xs|
  {
    if xs != [] {
      var init := xs[..|xs| - 1];
      var x := xs[|xs| - 1];
      SumSquaresZeroIffSilence(init);
      assert x * x >= 0;
      if x != 0 {
        assert x * x > 0;
      }
      assert forall i :: 0 <= i < |init| ==> init[i] == xs[i];
    }
  }

  /** The integer part of `rmsEnergy` (vad.go:171-182): the number of samples
      and the sum of their squares. The mean, square root and float threshold
      are left to `loud`; fewer than two bytes give no samples and energy 0. */
  method SquareSum(pcm: Chunk) returns (n: nat, sum: int)
    ensures n == |pcm| / 2 && sum == SumSquares(Samples(pcm))
    ensures sum >= 0 && (sum == 0 <==> forall i :: 0 <= i < n ==> Samples(pcm)[i] == 0)
  {
    n := |pcm| / 2;
    SumSquaresZeroIffSilence(Samples(pcm));
    if n == 0 {
      return n, 0;
    }
    sum := 0;
    var i := 0;
    while i < n
      invariant 0 <= i <= n
      invariant sum == SumSquares(Samples(pcm)[..i])
    {
      SampleAt(pcm, i);
      var sample := Int16(pcm[i * 2], pcm[i * 2 + 1]);
      assert Samples(pcm)[..i + 1][..i] == Samples(pcm)[..i];
      sum := sum + sample * sample;
      i := i + 1;
    }
    assert Samples(pcm)[..n] == Samples(pcm);
  }
}
