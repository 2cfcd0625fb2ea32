/** Shared vocabulary: bytes and audio chunks, optional and fallible values,
    sequence concatenation, "keep the most recent n" and the sub-sequence order
    used to state that a pipeline stage loses data but never reorders it. */
module Common {

  /** One octet of PCM or WAV data. */
  type Byte = b: int | 0 <= b < 256

  /** A chunk of signed 16-bit little-endian mono PCM, as read from the recorder. */
  type Chunk = seq<Byte>

  datatype Option<+T> = None | Some(value: T)

  datatype Result<+T, +E> = Success(value: T) | Failure(error: E)

  function Min(a: int, b: int): int { if a <= b then a else b }

  function Max(a: int, b: int): int { if a <= b then b else a }

  /** A non-empty sequence is its initial part followed by its last element. */
  lemma InitLast<T>(s: seq<T>)
    requires s != []
    ensures s == s[..|s| - 1] + [s[|s| - 1]]
  {
  }

  /** A slice extended by the element that follows it. */
  lemma SliceSnoc<T>(s: seq<T>, i: nat, j: nat)
    requires i <= j < |s|
    ensures s[i..j + 1] == s[i..j] + [s[j]]
  {
  }

  /** Concatenation of a sequence of sequences, in order. */
  function Flatten<T>(xss: seq<seq<T>>): seq<T>
  {
    if xss == [] then [] else Flatten(xss[..|xss| - 1]) + xss[|xss| - 1]
  }

  lemma FlattenAppend<T>(xss: seq<seq<T>>, ys: seq<T>)
    ensures Flatten(xss + [ys]) == Flatten(xss) + ys
  {
    assert (xss + [ys])[..|xss|] == xss;
  }

  lemma FlattenSingleton<T>(xs: seq<T>)
    ensures Flatten([xs]) == xs
  {
    assert [xs][..0] == [];
  }

  lemma {:induction false} FlattenConcat<T>(xss: seq<seq<T>>, yss: seq<seq<T>>)
    ensures Flatten(xss + yss) == Flatten(xss) + Flatten(yss)
    decreases |yss|
  {
    if yss == [] {
      assert xss + yss == xss;
    } else {
      var init := yss[..|yss| - 1];
      var last := yss[|yss| - 1];
      assert yss == init + [last];
      assert xss + yss == (xss + init) + [last];
      FlattenAppend(xss + init, last);
      FlattenConcat(xss, init);
      FlattenAppend(init, last);
    }
  }

  /** Appends `x` to the last (currently open) sequence of `xss`. */
  function AppendToLast<T>(xss: seq<seq<T>>, x: T): (r: seq<seq<T>>)
    requires |xss| > 0
    ensures |r| == |xss| && r[..|r| - 1] == xss[..|xss| - 1]
    ensures r[|r| - 1] == xss[|xss| - 1] + [x]
    ensures Flatten(r) == Flatten(xss) + [x]
  {
    var init := xss[..|xss| - 1];
    FlattenAppend(init, xss[|xss| - 1] + [x]);
    assert xss == init + [xss[|xss| - 1]];
    FlattenAppend(init, xss[|xss| - 1]);
    init + [xss[|xss| - 1] + [x]]
  }

  /** The `n` most recent elements of `s`, oldest first: what a bounded buffer
      that evicts its oldest element when full retains. */
  function LastN<T>(s: seq<T>, n: nat): (r: seq<T>)
    ensures |r| == Min(|s|, n)
    ensures r == s[|s| - |r|..]
  {
    if |s| <= n then s else s[|s| - n..]
  }

  /** Keeping the most recent n after every append is the same as keeping the
      most recent n once at the end: eviction of the oldest element is
      associative over a stream. */
  lemma LastNAppend<T>(s: seq<T>, x: T, n: nat)
    ensures LastN(LastN(s, n) + [x], n) == LastN(s + [x], n)
  {
    var l := LastN(s, n);
    var r := LastN(l + [x], n);
    var q := LastN(s + [x], n);
    assert |r| == |q|;
    forall i | 0 <= i < |r|
      ensures r[i] == q[i]
    {
      assert r[i] == (l + [x])[|l| + 1 - |r| + i];
      assert q[i] == (s + [x])[|s| + 1 - |q| + i];
    }
  }

  lemma {:induction false} LastNConcat<T>(s: seq<T>, xs: seq<T>, n: nat)
    ensures LastN(LastN(s, n) + xs, n) == LastN(s + xs, n)
    decreases |xs|
  {
    if xs == [] {
      assert s + xs == s;
      assert LastN(s, n) + xs == LastN(s, n);
    } else {
      var init := xs[..|xs| - 1];
      var x := xs[|xs| - 1];
      assert xs == init + [x];
      assert LastN(s, n) + xs == (LastN(s, n) + init) + [x];
      assert s + xs == (s + init) + [x];
      LastNAppend(LastN(s, n) + init, x, n);
      LastNConcat(s, init, n);
      LastNAppend(s + init, x, n);
    }
  }

  /** `a` is obtained from `b` by deleting elements; order is kept. */
  predicate IsSubseq<T(==)>(a: seq<T>, b: seq<T>)
    decreases |b|
  {
    if a == [] then true
    else if b == [] then false
    else (a[|a| - 1] == b[|b| - 1] && IsSubseq(a[..|a| - 1], b[..|b| - 1]))
         || IsSubseq(a, b[..|b| - 1])
  }

  lemma {:induction false} SubseqRefl<T>(a: seq<T>)
    ensures IsSubseq(a, a)
    decreases |a|
  {
    if a != [] {
      SubseqRefl(a[..|a| - 1]);
    }
  }

  lemma SubseqSnoc<T>(a: seq<T>, b: seq<T>, x: T)
    requires IsSubseq(a, b)
    ensures IsSubseq(a + [x], b + [x])
  {
    assert (a + [x])[..|a|] == a;
    assert (b + [x])[..|b|] == b;
  }

  lemma SubseqExtend<T>(a: seq<T>, b: seq<T>, x: T)
    requires IsSubseq(a, b)
    ensures IsSubseq(a, b + [x])
  {
    assert (b + [x])[..|b|] == b;
  }

  lemma {:induction false} SubseqTrans<T>(a: seq<T>, b: seq<T>, c: seq<T>)
    requires IsSubseq(a, b) && IsSubseq(b, c)
    ensures IsSubseq(a, c)
    decreases |c|
  {
    if a == [] {
    } else if IsSubseq(b, c[..|c| - 1]) {
      SubseqTrans(a, b, c[..|c| - 1]);
    } else {
      assert b[|b| - 1] == c[|c| - 1] && IsSubseq(b[..|b| - 1], c[..|c| - 1]);
      if a[|a| - 1] == b[|b| - 1] && IsSubseq(a[..|a| - 1], b[..|b| - 1]) {
        SubseqTrans(a[..|a| - 1], b[..|b| - 1], c[..|c| - 1]);
      } else {
        SubseqTrans(a, b[..|b| - 1], c[..|c| - 1]);
      }
    }
  }

  /** Appending `x` to the tail part and keeping only its last `n` keeps a
      sub-sequence of `b + [x]`. */
  lemma SubseqKeepRecent<T>(a: seq<T>, tail: seq<T>, b: seq<T>, x: T, n: nat)
    requires IsSubseq(a + tail, b)
    ensures IsSubseq(a + LastN(tail + [x], n), b + [x])
  {
    var p := tail + [x];
    var k := |p| - |LastN(p, n)|;
    assert LastN(p, n) == p[k..];
    SubseqDropMiddle(a, p, k);
    assert a + p == (a + tail) + [x];
    SubseqSnoc(a + tail, b, x);
    SubseqTrans(a + p[k..], a + p, b + [x]);
  }

  /** Dropping a prefix of the tail part keeps a sub-sequence. */
  lemma {:induction false} SubseqDropMiddle<T>(x: seq<T>, y: seq<T>, k: nat)
    requires k <= |y|
    ensures IsSubseq(x + y[k..], x + y)
    decreases |y|
  {
    if k == |y| {
      assert x + y[k..] == x;
      SubseqGrow(x, y);
    } else {
      var y' := y[..|y| - 1];
      var last := y[|y| - 1];
      SubseqDropMiddle(x, y', k);
      assert y[k..] == y'[k..] + [last];
      assert x + y[k..] == (x + y'[k..]) + [last];
      assert x + y == (x + y') + [last];
      SubseqSnoc(x + y'[k..], x + y', last);
    }
  }

  lemma {:induction false} SubseqGrow<T>(a: seq<T>, b: seq<T>)
    ensures IsSubseq(a, a + b)
    decreases |b|
  {
    if b == [] {
      assert a + b == a;
      SubseqRefl(a);
    } else {
      SubseqGrow(a, b[..|b| - 1]);
      assert a + b == (a + b[..|b| - 1]) + [b[|b| - 1]];
      SubseqExtend(a, a + b[..|b| - 1], b[|b| - 1]);
    }
  }

  /** Go's integer division on `int`, which truncates toward zero (Dafny's `/`
      is Euclidean); only a positive divisor occurs in the modelled code. */
  function GoQuo(a: int, d: int): (q: int)
    requires d > 0
    ensures a >= 0 ==> d * q <= a < d * q + d
    ensures a < 0 ==> d * q >= a > d * q - d
  {
    if a >= 0 then a / d else -((-a) / d)
  }
}
