/**
 * The tiny wavelet tree of `src/wt_forest/mod.rs`: at most `SIZE` symbols,
 * one level of `SIZE` bits per bit of the largest symbol, access by descent
 * with `rank1` answered by the bit vector.
 */
module TinyWaveletTree {
  import opened Bits
  import opened StablePartition
  import opened Blocks
  import opened Layout
  import opened Wrappers

  /**
   * `TinyWT<T, BV, SIZE>`: the level-major bit vector `data`, the number of
   * symbols `n` and of levels `nLevels`; `size` is the const generic `SIZE`.
   */
  datatype TinyWT = TinyWT(data: seq<bool>, n: nat, nLevels: nat, size: nat)

  /**
   * `t` is the tiny tree built from `s`: `n` symbols, `msb(max) + 1` levels,
   * and the bit vector laid out from the level orders of `s`.  The layout is
   * stated for any list `os` of those orders, so that only the proofs that
   * name `Fits(os, size)` for one look inside it.
   */
  ghost predicate Encodes(t: TinyWT, s: seq<nat>)
  {
    && |s| <= t.size
    && t.n == |s|
    && t.nLevels == NLevels(s)
    && |t.data| == Offset(t.nLevels, t.size)
    && forall os {:trigger Fits(os, t.size)} :: LevelOrders(s, t.nLevels, os) ==>
         Fits(os, t.size) && t.data == DataBits(os, t.size, t.nLevels)
  }

  /**
   * `TinyWT::new(&mut sequence[lo..hi])`.  An empty segment gives the empty
   * tree, a segment longer than `size` an error; otherwise the tree encodes
   * the segment and the segment is left in the order of the last level.
   */
  method New(a: array<nat>, lo: nat, hi: nat, size: nat) returns (r: Result<TinyWT>)
    requires lo <= hi <= a.Length
    requires 0 < hi - lo <= size ==> Max(a[lo..hi]) > 0
    modifies a
    ensures r.Err? <==> hi - lo > size
    ensures r.Ok? ==> r.value.size == size && Encodes(r.value, old(a[lo..hi]))
    ensures r.Ok? ==> a[lo..hi] == FinalOrder(old(a[lo..hi]))
    ensures multiset(a[lo..hi]) == multiset(old(a[lo..hi]))
    ensures r.Err? ==> a[lo..hi] == old(a[lo..hi])
    ensures a[..lo] == old(a[..lo]) && a[hi..] == old(a[hi..])
  {
    if hi - lo == 0 {
      return Ok(TinyWT([], 0, 0, size));
    }
    if hi - lo > size {
      return Err("Sequence too big!");
    }
    ghost var s := a[lo..hi];
    var n := hi - lo;
    var sigma := Max(a[lo..hi]);
    var nLevels := BitLength(sigma);
    ghost var os := OrdersExist(s, nLevels);
    var bv := BuildLevels(a, lo, hi, size, nLevels, os);
    forall os' | LevelOrders(s, nLevels, os')
      ensures Fits(os', size) && bv == DataBits(os', size, nLevels)
    {
      OrdersUnique(s, nLevels, os, os');
    }
    return Ok(TinyWT(bv, n, nLevels, size));
  }

  /**
   * The construction loop: level after level, emit the bits and partition.
   * `os` lists the level orders of the segment; the segment ends in the
   * order of the last level.
   */
  method BuildLevels(a: array<nat>, lo: nat, hi: nat, size: nat, nLevels: nat, ghost os: seq<seq<nat>>)
    returns (bv: seq<bool>)
    requires lo <= hi <= a.Length && hi - lo <= size
    requires LevelOrders(a[lo..hi], nLevels, os) && Fits(os, size)
    modifies a
    ensures bv == DataBits(os, size, nLevels)
    ensures a[lo..hi] == Order(old(a[lo..hi]), nLevels, nLevels)
    ensures multiset(a[lo..hi]) == multiset(old(a[lo..hi]))
    ensures a[..lo] == old(a[..lo]) && a[hi..] == old(a[hi..])
  {
    ghost var s := a[lo..hi];
    bv := [];
    var shift := 1;
    for l := 0 to nLevels
      invariant shift == l + 1
      invariant bv == DataBits(os, size, l)
      invariant a[lo..hi] == Order(s, nLevels, l)
      invariant multiset(a[lo..hi]) == multiset(s)
      invariant a[..lo] == old(a[..lo]) && a[hi..] == old(a[hi..])
    {
      var k := nLevels - shift;
      ghost var prev := a[lo..hi];
      bv := EmitLevel(a, lo, hi, size, k, bv);
      PartitionKeeps(prev, a[lo..hi], s, k);
      LevelAppended(s, nLevels, os, size, l, k, bv);
      OrderSucc(s, nLevels, l, k);
      shift := shift + 1;
    }
  }

  /**
   * One round of the construction loop: append bit `k` of every symbol of
   * the segment, padded with zeros to `size`, then stably partition the
   * segment by that bit.
   */
  method EmitLevel(a: array<nat>, lo: nat, hi: nat, size: nat, k: nat, bv: seq<bool>)
    returns (bv': seq<bool>)
    requires lo <= hi <= a.Length && hi - lo <= size
    modifies a
    ensures bv' == bv + Padded(old(a[lo..hi]), k, size)
    ensures a[lo..hi] == Partition(old(a[lo..hi]), k)
    ensures a[..lo] == old(a[..lo]) && a[hi..] == old(a[hi..])
  {
    var thisLevel := LevelOf(a[lo..hi], k);
    var remaining := size - |thisLevel|;
    bv' := bv + thisLevel;
    bv' := bv' + ZeroBits(remaining);
    StablePartitionOf2(a, lo, hi, k);
  }

  /** The inner loop of `new`: bit `k` of every symbol of the slice, in order. */
  method LevelOf(sequence: seq<nat>, k: nat) returns (thisLevel: seq<bool>)
    ensures thisLevel == LevelBits(sequence, k)
  {
    thisLevel := [];
    for i := 0 to |sequence|
      invariant thisLevel == LevelBits(sequence[..i], k)
    {
      assert sequence[..i + 1] == sequence[..i] + [sequence[i]];
      BitIsShr(sequence[i], k);
      thisLevel := thisLevel + [Shr(sequence[i], k) % 2 == 1];
    }
    assert sequence[..|sequence|] == sequence;
  }

  /** `len`, `is_empty` and `n_levels` report what was built. */
  lemma Accessors(t: TinyWT, s: seq<nat>)
    requires Encodes(t, s)
    ensures t.n == |s|
    ensures t.n == 0 <==> s == []
    ensures t.nLevels == BitLength(Max(s))
    ensures |t.data| == t.nLevels * t.size
  {
    var os := OrdersExist(s, t.nLevels);
    assert Fits(os, t.size);
    OffsetIsProduct(t.nLevels, t.size);
  }

  /**
   * The bit one round of the descent reads in level `l` (`Offset(l, size)`
   * is `l * SIZE`): bit `k` of the symbol under the cursor.
   */
  lemma LevelBit(t: TinyWT, s: seq<nat>, os: seq<seq<nat>>, l: nat, cur: nat, k: nat)
    requires Encodes(t, s) && LevelOrders(s, t.nLevels, os)
    requires l < t.nLevels && cur < |os[l]| && k == t.nLevels - (l + 1)
    ensures Offset(l, t.size) + cur < Offset(l + 1, t.size) <= |t.data|
    ensures t.data[Offset(l, t.size) + cur] == Bit(os[l][cur], k)
  {
    assert Fits(os, t.size);
    LevelBitRead(t.data, os, t.size, l, cur, k);
  }

  /** `rank1(l * SIZE + j)` is `rank1(l * SIZE)` plus the rank of `j` inside level `l`. */
  lemma LevelRankAt(t: TinyWT, s: seq<nat>, os: seq<seq<nat>>, l: nat, j: nat, k: nat)
    requires Encodes(t, s) && LevelOrders(s, t.nLevels, os)
    requires l < t.nLevels && j <= t.size && k == t.nLevels - (l + 1)
    ensures Offset(l, t.size) + j <= |t.data|
    ensures Rank1(t.data, Offset(l, t.size) + j) == Rank1(t.data, Offset(l, t.size)) + LevelRank(os[l], k, j)
  {
    EncodesLayout(t, s, os);
    RankWithinLevel(os, t.size, l, j, k);
  }

  /** The layout `Encodes` promises, for the level orders `os` of `s`. */
  lemma EncodesLayout(t: TinyWT, s: seq<nat>, os: seq<seq<nat>>)
    requires Encodes(t, s) && LevelOrders(s, t.nLevels, os)
    ensures Fits(os, t.size) && t.data == DataBits(os, t.size, |os|)
  {
    assert Fits(os, t.size);
  }

  /** The ones in positions `[from, to)` of level `l` are the difference of the ranks inside the level. */
  lemma LevelWindow(t: TinyWT, s: seq<nat>, os: seq<seq<nat>>, l: nat, from: nat, to: nat, k: nat)
    requires Encodes(t, s) && LevelOrders(s, t.nLevels, os)
    requires l < t.nLevels && from <= to <= t.size && k == t.nLevels - (l + 1)
    ensures Offset(l, t.size) + to <= |t.data|
    ensures LevelRank(os[l], k, from) + CountTrue(t.data[Offset(l, t.size) + from..Offset(l, t.size) + to])
         == LevelRank(os[l], k, to)
  {
    LevelRankAt(t, s, os, l, from, k);
    LevelRankAt(t, s, os, l, to, k);
    CountBetween(t.data, Offset(l, t.size) + from, Offset(l, t.size) + to, Rank1(t.data, Offset(l, t.size)),
                 LevelRank(os[l], k, from), LevelRank(os[l], k, to));
  }

  /**
   * The ones of level `l`, `rank1((l + 1) * SIZE) - rank1(l * SIZE)`, are
   * the ones among its first `n` positions (the padding holds none), and
   * they are the symbols of the level's order whose bit `k` is 1.
   */
  lemma LevelOnes(t: TinyWT, s: seq<nat>, os: seq<seq<nat>>, l: nat, k: nat)
    requires Encodes(t, s) && LevelOrders(s, t.nLevels, os)
    requires l < t.nLevels && k == t.nLevels - (l + 1)
    ensures Offset(l, t.size) + t.n <= Offset(l + 1, t.size) <= |t.data|
    ensures Rank1(t.data, Offset(l + 1, t.size)) - Rank1(t.data, Offset(l, t.size))
         == CountTrue(t.data[Offset(l, t.size)..Offset(l, t.size) + t.n])
         == |Group(os[l], k, true)|
  {
    assert os[l] == Order(s, t.nLevels, l);
    LevelOnesRank(t, s, os, l, k);
    LevelRankCountsOnes(os[l], k, t.n);
    assert os[l][..t.n] == os[l];
  }

  /** `LevelOnes` as level-local ranks: both counts are the rank of the level's end. */
  lemma LevelOnesRank(t: TinyWT, s: seq<nat>, os: seq<seq<nat>>, l: nat, k: nat)
    requires Encodes(t, s) && LevelOrders(s, t.nLevels, os)
    requires l < t.nLevels && k == t.nLevels - (l + 1) && |os[l]| == t.n
    ensures Offset(l, t.size) + t.n <= Offset(l + 1, t.size) <= |t.data|
    ensures Rank1(t.data, Offset(l + 1, t.size)) - Rank1(t.data, Offset(l, t.size)) == LevelRank(os[l], k, t.n)
    ensures CountTrue(t.data[Offset(l, t.size)..Offset(l, t.size) + t.n]) == LevelRank(os[l], k, t.n)
  {
    LevelRankAt(t, s, os, l, t.size, k);
    LevelRankFull(os[l], k, t.size);
    LevelWindow(t, s, os, l, 0, t.n, k);
  }

  /**
   * The ranks one round of the descent subtracts do not go below zero: the
   * ones before the cursor and the ones of the whole level, counted from
   * the start of level `l`, are at most the cursor and at most `n`.
   */
  lemma LevelRankBounds(t: TinyWT, s: seq<nat>, os: seq<seq<nat>>, l: nat, cur: nat, k: nat)
    requires Encodes(t, s) && LevelOrders(s, t.nLevels, os)
    requires l < t.nLevels && cur < |os[l]| == t.n && k == t.nLevels - (l + 1)
    ensures Offset(l, t.size) + cur < Offset(l + 1, t.size) <= |t.data|
    ensures Rank1(t.data, Offset(l, t.size)) <= Rank1(t.data, Offset(l, t.size) + cur)
                                              <= Rank1(t.data, Offset(l, t.size)) + cur
    ensures Rank1(t.data, Offset(l, t.size)) <= Rank1(t.data, Offset(l + 1, t.size))
                                              <= Rank1(t.data, Offset(l, t.size)) + t.n
  {
    LevelBit(t, s, os, l, cur, k);
    LevelRankAt(t, s, os, l, cur, k);
    LevelRankAt(t, s, os, l, t.size, k);
    LevelRankFull(os[l], k, t.size);
  }

  /**
   * One round of the descent: the bit read is bit `k` of the symbol under
   * the cursor, and the next cursor, `rank + (n - ones)` after a 1 and
   * `cur - rank` after a 0, points at the same symbol in the next level.
   * `bit`, `zeros`, `rank` and `next` stand for the values the descent has
   * computed; `next` is an `int` because the source's subtraction is shown
   * here not to underflow.
   */
  lemma LevelStep(t: TinyWT, s: seq<nat>, os: seq<seq<nat>>, l: nat, cur: nat, k: nat,
                  bit: bool, zeros: int, rank: int, next: int)
    requires Encodes(t, s) && LevelOrders(s, t.nLevels, os)
    requires l < t.nLevels && cur < |os[l]| == t.n && k == t.nLevels - (l + 1)
    requires Offset(l, t.size) + cur < Offset(l + 1, t.size) <= |t.data|
    requires bit == t.data[Offset(l, t.size) + cur]
    requires zeros == t.n - (Rank1(t.data, Offset(l + 1, t.size)) - Rank1(t.data, Offset(l, t.size)))
    requires rank == Rank1(t.data, Offset(l, t.size) + cur) - Rank1(t.data, Offset(l, t.size))
    requires next == if bit then rank + zeros else cur - rank
    ensures bit == Bit(os[l][cur], k)
    ensures 0 <= next < t.n
    ensures l + 1 < t.nLevels ==> |os[l + 1]| == t.n && os[l + 1][next] == os[l][cur]
  {
    LevelBit(t, s, os, l, cur, k);
    LevelRankAt(t, s, os, l, cur, k);
    LevelRankAt(t, s, os, l, t.size, k);
    LevelRankFull(os[l], k, t.size);
    NextCursor(s, t.nLevels, os, l, k, cur, next);
  }

  /**
   * `get_unchecked(i)`: the descent over the levels.  For every `i < n` it
   * returns the `i`-th symbol of the encoded sequence.  Level `l` starts at
   * `Offset(l, size)`, that is `l * SIZE`.
   */
  method GetUnchecked(t: TinyWT, ghost s: seq<nat>, i: nat) returns (r: nat)
    requires Encodes(t, s) && i < t.n
    ensures r == s[i]
  {
    ghost var os := OrdersExist(s, t.nLevels);
    var curI: nat := i;
    var result: nat := 0;
    var nOnesUpToLevel: nat := 0;
    assert s[i] in s;
    SymbolFits(s[i], Max(s));
    for l := 0 to t.nLevels
      invariant curI < t.n && (l < t.nLevels ==> |os[l]| == t.n && os[l][curI] == s[i])
      invariant result == Shr(s[i], t.nLevels - l)
      invariant Offset(l, t.size) <= |t.data|
      invariant nOnesUpToLevel == Rank1(t.data, Offset(l, t.size))
    {
      curI, result, nOnesUpToLevel := Descend(t, s, os, i, l, curI, result, nOnesUpToLevel);
    }
    return result;
  }

  /**
   * One round of `get_unchecked`: read the bit under the cursor in level
   * `l`, shift it into the result, and move the cursor to the same symbol
   * in level `l + 1`; `nOnesUpToLevel` moves on to the start of that level.
   */
  method Descend(t: TinyWT, ghost s: seq<nat>, ghost os: seq<seq<nat>>, ghost i: nat, l: nat,
                 curI: nat, result: nat, nOnesUpToLevel: nat)
    returns (curI': nat, result': nat, nOnesUpToLevel': nat)
    requires Encodes(t, s) && LevelOrders(s, t.nLevels, os) && i < |s|
    requires l < t.nLevels && curI < t.n && |os[l]| == t.n && os[l][curI] == s[i]
    requires result == Shr(s[i], t.nLevels - l)
    requires Offset(l, t.size) <= |t.data| && nOnesUpToLevel == Rank1(t.data, Offset(l, t.size))
    ensures curI' < t.n && (l + 1 < t.nLevels ==> |os[l + 1]| == t.n && os[l + 1][curI'] == s[i])
    ensures result' == Shr(s[i], t.nLevels - (l + 1))
    ensures Offset(l + 1, t.size) <= |t.data|
    ensures nOnesUpToLevel' == Rank1(t.data, Offset(l + 1, t.size))
  {
    var k := t.nLevels - (l + 1);
    LevelRankBounds(t, s, os, l, curI, k);
    var bit := t.data[Offset(l, t.size) + curI];
    var tmp := Rank1(t.data, Offset(l + 1, t.size));
    var nOnesInLevel: nat := tmp - nOnesUpToLevel;
    var nZerosInLevel: nat := t.n - nOnesInLevel;
    var rankInLevel: nat := Rank1(t.data, Offset(l, t.size) + curI) - nOnesUpToLevel;
    nOnesUpToLevel' := tmp;
    curI' := if bit then rankInLevel + nZerosInLevel else curI - rankInLevel;
    LevelStep(t, s, os, l, curI, k, bit, nZerosInLevel, rankInLevel, curI');
    result' := result * 2 + (if bit then 1 else 0);
    ShiftIn(s[i], k, t.nLevels - l, result, bit, result');
  }

  /**
   * The guard of `get` as written: it refuses `i > SIZE` and `i > n`, so
   * it lets `i == n` through.
   */
  predicate GetAdmits(t: TinyWT, i: nat)
  {
    !(i > t.size || i > t.n)
  }

  /**
   * On a tree built from `s` the written guard admits the positions up to
   * and including `n`: one more than the symbols there are, and on the
   * empty tree `get(0)` goes on to the descent.
   */
  lemma GetAdmitsPastEnd(t: TinyWT, s: seq<nat>, i: nat)
    requires Encodes(t, s)
    ensures GetAdmits(t, i) <==> i <= |s|
  {
  }

  /**
   * `get(i)` with the bound `i < n` it evidently intends: `None` past the
   * last symbol, otherwise the descent, which gives back `s[i]`.
   */
  method Get(t: TinyWT, ghost s: seq<nat>, i: nat) returns (r: Option<nat>)
    requires Encodes(t, s)
    ensures r.Some? <==> i < |s|
    ensures r.Some? ==> r.value == s[i]
  {
    if i > t.size || i >= t.n {
      return None;
    }
    var x := GetUnchecked(t, s, i);
    return Some(x);
  }
}
