/**
 * `WTForest` of `src/wt_forest/mod.rs`: the sequence cut into blocks of
 * `BLOCK_SIZE` symbols (the last one possibly shorter), one tiny wavelet
 * tree per block, and access routed to block `i / BLOCK_SIZE`.
 */
module Forest {
  import opened Bits
  import opened Blocks
  import opened Layout
  import opened Wrappers
  import Tiny = TinyWaveletTree

  /** `WTForest<T, BV, BLOCK_SIZE>`: the trees, the total length `n`, and `BLOCK_SIZE`. */
  datatype WTForest = WTForest(forest: seq<Tiny.TinyWT>, n: nat, blockSize: nat)

  /** The block that starts at `Offset(b, w)`: `w` symbols, or what is left of `s`. */
  function Chunk(s: seq<nat>, w: nat, b: nat): (c: seq<nat>)
    requires w > 0 && Offset(b, w) < |s|
    ensures 0 < |c| <= w
  {
    s[Offset(b, w)..Min(Offset(b, w) + w, |s|)]
  }

  /** Position `i` lies in block `i / w`, at offset `i % w` there. */
  lemma Route(s: seq<nat>, w: nat, i: nat, b: nat, j: nat)
    requires w > 0 && i < |s| && b == i / w && j == i % w
    ensures Offset(b, w) < |s| && b < NumBlocks(|s|, w)
    ensures j < |Chunk(s, w, b)| && Chunk(s, w, b)[j] == s[i]
  {
    DivIsOffset(i, w);
    BlockExists(|s|, w, b);
  }

  /**
   * `f` is the forest built from `s`: it stores `n`, has one tree per block,
   * and tree `b` encodes block `b` with capacity `BLOCK_SIZE`.
   */
  ghost predicate Encodes(f: WTForest, s: seq<nat>)
  {
    && f.blockSize > 0
    && f.n == |s|
    && |f.forest| == NumBlocks(|s|, f.blockSize)
    && BlocksEncode(f.forest, s, f.blockSize, |f.forest|)
  }

  /**
   * Tree `b` of the first `c` trees has capacity `w` and encodes block `b`.
   * The statement about a block is looked at only where the block is named.
   */
  ghost predicate BlocksEncode(forest: seq<Tiny.TinyWT>, s: seq<nat>, w: nat, c: nat)
    requires w > 0 && c <= |forest|
  {
    forall b :: 0 <= b < c ==> BlockBuilt(forest[b], s, w, b)
  }

  /** `t` has capacity `w` and encodes block `b` of `s`. */
  ghost predicate BlockBuilt(t: Tiny.TinyWT, s: seq<nat>, w: nat, b: nat)
    requires w > 0
  {
    && Offset(b, w) < |s|
    && t.size == w
    && Tiny.Encodes(t, Chunk(s, w, b))
  }

  /** Appending the tree of block `c` to the trees of blocks `0 .. c - 1`. */
  lemma BlocksSnoc(forest: seq<Tiny.TinyWT>, t: Tiny.TinyWT, s: seq<nat>, w: nat, c: nat)
    requires w > 0 && |forest| == c && BlocksEncode(forest, s, w, c) && BlockBuilt(t, s, w, c)
    ensures BlocksEncode(forest + [t], s, w, c + 1)
  {
    forall b | 0 <= b < c + 1
      ensures BlockBuilt((forest + [t])[b], s, w, b)
    {
      if b < c {
        assert (forest + [t])[b] == forest[b];
      }
    }
  }

  /** Every block holds a non-zero symbol (the bit length of the largest symbol needs one). */
  ghost predicate NonZeroBlocks(s: seq<nat>, w: nat)
    requires w > 0
  {
    forall b {:trigger Chunk(s, w, b)} :: Offset(b, w) < |s| ==> Max(Chunk(s, w, b)) > 0
  }

  /** The buffer after construction: each of the first `c` blocks in the order its tree left it. */
  function Reordered(s: seq<nat>, w: nat, c: nat): (r: seq<nat>)
    requires w > 0
    ensures |r| == Min(Offset(c, w), |s|)
  {
    if c == 0 then []
    else if Offset(c - 1, w) < |s| then Reordered(s, w, c - 1) + FinalOrder(Chunk(s, w, c - 1))
    else Reordered(s, w, c - 1)
  }

  /** Rearranging one segment and nothing else keeps the symbols of the whole. */
  lemma SegmentPermutes(x: seq<nat>, y: seq<nat>, lo: nat, hi: nat)
    requires lo <= hi <= |x| == |y|
    requires x[..lo] == y[..lo] && x[hi..] == y[hi..]
    requires multiset(x[lo..hi]) == multiset(y[lo..hi])
    ensures multiset(x) == multiset(y)
  {
    assert x == x[..lo] + x[lo..hi] + x[hi..];
    assert y == y[..lo] + y[lo..hi] + y[hi..];
  }

  /** An untouched tail of the buffer still shows block `c` of `s`. */
  lemma ChunkInBuffer(s: seq<nat>, before: seq<nat>, w: nat, c: nat, lo: nat, hi: nat)
    requires w > 0 && |before| == |s| && lo == Offset(c, w) < hi <= |s|
    requires hi == Min(Offset(c + 1, w), |s|) && before[lo..] == s[lo..]
    ensures before[lo..hi] == Chunk(s, w, c)
  {
    assert before[lo..hi] == before[lo..][..hi - lo];
  }

  /** Putting block `c` in its final order after the first `c` done blocks gives `c + 1` done blocks. */
  lemma ReorderedStep(s: seq<nat>, after: seq<nat>, w: nat, c: nat, lo: nat, hi: nat)
    requires w > 0 && lo == Offset(c, w) < hi <= |after| && hi <= |s|
    requires after[..lo] == Reordered(s, w, c) && after[lo..hi] == FinalOrder(Chunk(s, w, c))
    ensures after[..hi] == Reordered(s, w, c + 1)
  {
    assert after[..hi] == after[..lo] + after[lo..hi];
  }

  /** What lies past the block the round worked on is still the input. */
  lemma TailKept(s: seq<nat>, before: seq<nat>, after: seq<nat>, lo: nat, hi: nat)
    requires lo <= hi <= |before| == |after| == |s|
    requires before[lo..] == s[lo..] && after[hi..] == before[hi..]
    ensures after[hi..] == s[hi..]
  {
    assert before[hi..] == before[lo..][hi - lo..];
    assert s[hi..] == s[lo..][hi - lo..];
  }

  /**
   * One round of `WTForest::new`: the tree of block `c`, built in place in
   * the buffer, which then holds one more block in its final order.  The
   * `?` on `TinyWT::new` never fires here, since the block is no longer
   * than `BLOCK_SIZE`.
   */
  method NewBlock(a: array<nat>, ghost s: seq<nat>, w: nat, c: nat, lo: nat, hi: nat) returns (t: Tiny.TinyWT)
    requires w > 0 && a.Length == |s| && lo == Offset(c, w) < hi <= |s| && hi == Min(Offset(c + 1, w), |s|)
    requires Max(Chunk(s, w, c)) > 0
    requires a[..lo] == Reordered(s, w, c) && a[lo..] == s[lo..] && multiset(a[..]) == multiset(s)
    modifies a
    ensures BlockBuilt(t, s, w, c)
    ensures a[..hi] == Reordered(s, w, c + 1) && a[hi..] == s[hi..] && multiset(a[..]) == multiset(s)
  {
    ghost var before := a[..];
    ChunkInBuffer(s, before, w, c, lo, hi);
    var r := Tiny.New(a, lo, hi, w);
    t := r.value;
    ReorderedStep(s, a[..], w, c, lo, hi);
    TailKept(s, before, a[..], lo, hi);
    SegmentPermutes(a[..], before, lo, hi);
  }

  /** The loop of `WTForest::new` over the `full` blocks of exactly `BLOCK_SIZE` symbols. */
  method FullBlocks(a: array<nat>, ghost s: seq<nat>, w: nat, full: nat) returns (forest: seq<Tiny.TinyWT>)
    requires w > 0 && a[..] == s && NonZeroBlocks(s, w) && Offset(full, w) <= |s|
    modifies a
    ensures |forest| == full && BlocksEncode(forest, s, w, full)
    ensures a[..Offset(full, w)] == Reordered(s, w, full)
    ensures a[Offset(full, w)..] == s[Offset(full, w)..]
    ensures multiset(a[..]) == multiset(s)
  {
    forest := [];
    for c := 0 to full
      invariant |forest| == c && Offset(c, w) <= |s|
      invariant BlocksEncode(forest, s, w, c)
      invariant a[..Offset(c, w)] == Reordered(s, w, c)
      invariant a[Offset(c, w)..] == s[Offset(c, w)..]
      invariant multiset(a[..]) == multiset(s)
    {
      var lo := Offset(c, w);
      OffsetMono(c + 1, full, w);
      var t := NewBlock(a, s, w, c, lo, lo + w);
      BlocksSnoc(forest, t, s, w, c);
      forest := forest + [t];
    }
  }

  /**
   * The tail of `WTForest::new`: after the full blocks, a tree for the
   * remainder when `BLOCK_SIZE` does not divide `n`.
   */
  method LastBlock(a: array<nat>, ghost s: seq<nat>, w: nat, full: nat, forest: seq<Tiny.TinyWT>)
    returns (forest': seq<Tiny.TinyWT>)
    requires w > 0 && a.Length == |s| && NonZeroBlocks(s, w) && Offset(full, w) <= |s| < Offset(full + 1, w)
    requires |forest| == full && BlocksEncode(forest, s, w, full)
    requires a[..Offset(full, w)] == Reordered(s, w, full) && a[Offset(full, w)..] == s[Offset(full, w)..]
    requires multiset(a[..]) == multiset(s)
    modifies a
    ensures |forest'| == NumBlocks(|s|, w) && BlocksEncode(forest', s, w, |forest'|)
    ensures a[..] == Reordered(s, w, NumBlocks(|s|, w)) && multiset(a[..]) == multiset(s)
  {
    var n := a.Length;
    var lo := Offset(full, w);
    BlocksOfLength(n, w, full);
    if lo < n {
      var t := NewBlock(a, s, w, full, lo, n);
      BlocksSnoc(forest, t, s, w, full);
      forest' := forest + [t];
    } else {
      assert a[..] == a[..lo];
      forest' := forest;
    }
  }

  /**
   * `WTForest::new(sequence)`: a tree for each of the `n / BLOCK_SIZE` full
   * blocks and one for the remainder if it is not empty; it never fails.
   * The buffer ends with each block in the order its tree left it.
   */
  method New(a: array<nat>, blockSize: nat) returns (r: Result<WTForest>)
    requires blockSize > 0 && NonZeroBlocks(a[..], blockSize)
    modifies a
    ensures r.Ok? && r.value.blockSize == blockSize && Encodes(r.value, old(a[..]))
    ensures a[..] == Reordered(old(a[..]), blockSize, NumBlocks(a.Length, blockSize))
    ensures multiset(a[..]) == multiset(old(a[..]))
  {
    ghost var s := a[..];
    var full := a.Length / blockSize;
    DivIsOffset(a.Length, blockSize);
    var forest := FullBlocks(a, s, blockSize, full);
    forest := LastBlock(a, s, blockSize, full, forest);
    return Ok(WTForest(forest, a.Length, blockSize));
  }

  /**
   * The shape of a forest built from `s`: `n / BLOCK_SIZE` trees of
   * `BLOCK_SIZE` symbols, then one tree for the remainder exactly when
   * `n % BLOCK_SIZE > 0`.
   */
  lemma Shape(f: WTForest, s: seq<nat>)
    requires Encodes(f, s)
    ensures |f.forest| == |s| / f.blockSize + (if |s| % f.blockSize > 0 then 1 else 0)
    ensures forall b :: 0 <= b < |s| / f.blockSize ==> f.forest[b].n == f.blockSize
    ensures |s| % f.blockSize > 0 ==> f.forest[|s| / f.blockSize].n == |s| % f.blockSize
  {
    var w, full := f.blockSize, |s| / f.blockSize;
    DivIsOffset(|s|, w);
    BlocksOfLength(|s|, w, full);
    forall b | 0 <= b < full
      ensures f.forest[b].n == w
    {
      OffsetMono(b + 1, full, w);
      assert BlockBuilt(f.forest[b], s, w, b);
    }
    if |s| % w > 0 {
      assert BlockBuilt(f.forest[full], s, w, full);
    }
  }

  /** `get_unchecked(i)`: tree `i / BLOCK_SIZE`, position `i % BLOCK_SIZE`; it gives back `s[i]`. */
  method GetUnchecked(f: WTForest, ghost s: seq<nat>, i: nat) returns (r: nat)
    requires Encodes(f, s) && i < f.n
    ensures r == s[i]
  {
    var b, j := i / f.blockSize, i % f.blockSize;
    Route(s, f.blockSize, i, b, j);
    assert BlockBuilt(f.forest[b], s, f.blockSize, b);
    r := Tiny.GetUnchecked(f.forest[b], Chunk(s, f.blockSize, b), j);
  }

  /** The guard of `get` as written: it refuses only `i > n`. */
  predicate GetAdmits(f: WTForest, i: nat)
  {
    !(i > f.n)
  }

  /**
   * The written guard admits `i == n`.  When `BLOCK_SIZE` divides `n`, the
   * block `n / BLOCK_SIZE` it routes to is one past the last tree.
   */
  lemma GetAdmitsPastEnd(f: WTForest, s: seq<nat>)
    requires Encodes(f, s) && |s| % f.blockSize == 0
    ensures GetAdmits(f, |s|) && |s| / f.blockSize == |f.forest|
  {
    DivIsOffset(|s|, f.blockSize);
    BlocksOfLength(|s|, f.blockSize, |s| / f.blockSize);
  }

  /** `get(i)` with the bound `i < n` it evidently intends: `None` past the end, `s[i]` otherwise. */
  method Get(f: WTForest, ghost s: seq<nat>, i: nat) returns (r: Option<nat>)
    requires Encodes(f, s)
    ensures r.Some? <==> i < |s|
    ensures r.Some? ==> r.value == s[i]
  {
    if i >= f.n {
      return None;
    }
    var x := GetUnchecked(f, s, i);
    return Some(x);
  }
}
