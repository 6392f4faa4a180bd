/**
 * The tiny wavelet tree of `src/wt_forest/tinywt.rs`: the same level-major
 * bit array as the tree of `mod.rs`, with its own rank support.  A rank
 * sample every `RANK_SAMPLE_SIZE` positions of each level and the number of
 * ones of each level are stored; the rank of a position is its sample plus
 * the ones counted word by word from the sample up to it.
 */
module SampledTinyWaveletTree {
  import opened Bits
  import opened StablePartition
  import opened Blocks
  import opened Layout
  import opened RankSamples
  import opened Wrappers
  import Tiny = TinyWaveletTree

  /**
   * `TinyWT<T, SIZE>`: the bit array `data`, `n`, `nLevels`, the flat
   * `rankSamples` (`blocks_per_level` samples per level) and `onesLevel`;
   * `size` is the const generic `SIZE`.
   */
  datatype TinyWT = TinyWT(data: seq<bool>, n: nat, nLevels: nat,
                           rankSamples: seq<nat>, onesLevel: seq<nat>, size: nat)

  /** The fields this tree shares with the tree of `mod.rs`. */
  function Core(t: TinyWT): Tiny.TinyWT
  {
    Tiny.TinyWT(t.data, t.n, t.nLevels, t.size)
  }

  /**
   * `t` is the sampled tree built from `s`: its bit array is laid out as in
   * the tree of `mod.rs`, `onesLevel[l]` is the number of ones of level `l`,
   * and the samples of level `l` count the ones of the level before every
   * `RANK_SAMPLE_SIZE`-th position.
   */
  ghost predicate Encodes(t: TinyWT, s: seq<nat>)
  {
    && Tiny.Encodes(Core(t), s)
    && forall os {:trigger Fits(os, t.size)} :: LevelOrders(s, t.nLevels, os) ==>
         && Fits(os, t.size)
         && t.onesLevel == OnesTable(os, t.nLevels)
         && t.rankSamples == SampleTable(os, NumBlocks(t.n, RankSampleSize), t.nLevels)
  }

  /**
   * `TinyWT::new(&mut sequence[lo..hi])`: as for the tree of `mod.rs`, with
   * the samples and the ones of each level gathered while the level is
   * emitted.
   */
  method New(a: array<nat>, lo: nat, hi: nat, size: nat) returns (r: Result<TinyWT>)
    requires lo <= hi <= a.Length
    requires 0 < hi - lo <= size ==> Max(a[lo..hi]) > 0
    modifies a
    ensures r.Err? <==> hi - lo > size
    ensures r.Ok? ==> r.value.size == size && Encodes(r.value, old(a[lo..hi]))
    ensures r.Ok? ==> a[lo..hi] == FinalOrder(old(a[lo..hi]))
    ensures multiset(a[lo..hi]) == multiset(old(a[lo..hi]))
    ensures r.Err? ==> a[lo..hi] == old(a[lo..hi])
    ensures a[..lo] == old(a[..lo]) && a[hi..] == old(a[hi..])
  {
    if hi - lo == 0 {
      return Ok(TinyWT([], 0, 0, [], [], size));
    }
    if hi - lo > size {
      return Err("Sequence too big!");
    }
    ghost var s := a[lo..hi];
    var n := hi - lo;
    var sigma := Max(a[lo..hi]);
    var nLevels := BitLength(sigma);
    ghost var os := OrdersExist(s, nLevels);
    var bv, rankSamples, onesLevel := BuildLevels(a, lo, hi, size, nLevels, os);
    forall os' | LevelOrders(s, nLevels, os')
      ensures && Fits(os', size) && bv == DataBits(os', size, nLevels)
              && onesLevel == OnesTable(os', nLevels)
              && rankSamples == SampleTable(os', NumBlocks(n, RankSampleSize), nLevels)
    {
      OrdersUnique(s, nLevels, os, os');
    }
    return Ok(TinyWT(bv, n, nLevels, rankSamples, onesLevel, size));
  }

  /** The construction loop: level after level, emit the bits, the samples and the ones, then partition. */
  method BuildLevels(a: array<nat>, lo: nat, hi: nat, size: nat, nLevels: nat, ghost os: seq<seq<nat>>)
    returns (bv: seq<bool>, rankSamples: seq<nat>, onesLevel: seq<nat>)
    requires lo <= hi <= a.Length && hi - lo <= size
    requires LevelOrders(a[lo..hi], nLevels, os) && Fits(os, size)
    modifies a
    ensures Tables(os, size, NumBlocks(hi - lo, RankSampleSize), nLevels, bv, rankSamples, onesLevel)
    ensures a[lo..hi] == Order(old(a[lo..hi]), nLevels, nLevels)
    ensures multiset(a[lo..hi]) == multiset(old(a[lo..hi]))
    ensures a[..lo] == old(a[..lo]) && a[hi..] == old(a[hi..])
  {
    ghost var s := a[lo..hi];
    var w := NumBlocks(hi - lo, RankSampleSize);
    bv, rankSamples, onesLevel := [], [], [];
    var shift := 1;
    for l := 0 to nLevels
      invariant shift == l + 1
      invariant Tables(os, size, w, l, bv, rankSamples, onesLevel)
      invariant a[lo..hi] == Order(s, nLevels, l)
      invariant multiset(a[lo..hi]) == multiset(s)
      invariant a[..lo] == old(a[..lo]) && a[hi..] == old(a[hi..])
    {
      bv, rankSamples, onesLevel := NextLevel(a, lo, hi, size, s, nLevels, os, l, nLevels - shift, w,
                                              bv, rankSamples, onesLevel);
      shift := shift + 1;
    }
  }

  /** One round of the construction loop, from the tables and the order of level `l` to those of `l + 1`. */
  method NextLevel(a: array<nat>, lo: nat, hi: nat, size: nat, ghost s: seq<nat>, nLevels: nat,
                   ghost os: seq<seq<nat>>, ghost l: nat, k: nat, w: nat,
                   bv: seq<bool>, rankSamples: seq<nat>, onesLevel: seq<nat>)
    returns (bv': seq<bool>, rankSamples': seq<nat>, onesLevel': seq<nat>)
    requires lo <= hi <= a.Length && hi - lo <= size && w == NumBlocks(hi - lo, RankSampleSize)
    requires LevelOrders(s, nLevels, os) && l < nLevels && k == nLevels - 1 - l
    requires Tables(os, size, w, l, bv, rankSamples, onesLevel)
    requires a[lo..hi] == Order(s, nLevels, l) && multiset(a[lo..hi]) == multiset(s)
    modifies a
    ensures Tables(os, size, w, l + 1, bv', rankSamples', onesLevel')
    ensures a[lo..hi] == Order(s, nLevels, l + 1) && multiset(a[lo..hi]) == multiset(s)
    ensures a[..lo] == old(a[..lo]) && a[hi..] == old(a[hi..])
  {
    ghost var prev := a[lo..hi];
    assert prev == os[l];
    bv', rankSamples', onesLevel' := TableRound(a, lo, hi, size, os, l, k, w, bv, rankSamples, onesLevel);
    OrderStep(s, nLevels, l, k, prev, a[lo..hi]);
  }

  /** The tables' side of a round: emitting level `l`, whose order is in the segment, extends all three. */
  method TableRound(a: array<nat>, lo: nat, hi: nat, size: nat, ghost os: seq<seq<nat>>, ghost l: nat,
                    k: nat, w: nat, bv: seq<bool>, rankSamples: seq<nat>, onesLevel: seq<nat>)
    returns (bv': seq<bool>, rankSamples': seq<nat>, onesLevel': seq<nat>)
    requires lo <= hi <= a.Length && hi - lo <= size && w == NumBlocks(hi - lo, RankSampleSize)
    requires l < |os| && k == |os| - 1 - l && a[lo..hi] == os[l]
    requires Tables(os, size, w, l, bv, rankSamples, onesLevel)
    modifies a
    ensures Tables(os, size, w, l + 1, bv', rankSamples', onesLevel')
    ensures a[lo..hi] == Partition(old(a[lo..hi]), k)
    ensures a[..lo] == old(a[..lo]) && a[hi..] == old(a[hi..])
  {
    TablesAppended(os, size, w, l, k, a[lo..hi], hi - lo, bv, rankSamples, onesLevel);
    bv', rankSamples', onesLevel' := EmitLevel(a, lo, hi, size, k, w, bv, rankSamples, onesLevel);
  }

  /**
   * One round of the construction loop: append bit `k` of every symbol of
   * the segment padded to `size`, the level's samples and its ones, then
   * stably partition the segment by that bit.
   */
  method EmitLevel(a: array<nat>, lo: nat, hi: nat, size: nat, k: nat, w: nat,
                   bv: seq<bool>, rankSamples: seq<nat>, onesLevel: seq<nat>)
    returns (bv': seq<bool>, rankSamples': seq<nat>, onesLevel': seq<nat>)
    requires lo <= hi <= a.Length && hi - lo <= size && w == NumBlocks(hi - lo, RankSampleSize)
    modifies a
    ensures bv' == bv + Padded(old(a[lo..hi]), k, size)
    ensures rankSamples' == rankSamples + LevelSamples(old(a[lo..hi]), k, w)
    ensures onesLevel' == onesLevel + [LevelRank(old(a[lo..hi]), k, hi - lo)]
    ensures a[lo..hi] == Partition(old(a[lo..hi]), k)
    ensures a[..lo] == old(a[..lo]) && a[hi..] == old(a[hi..])
  {
    var thisLevel, rankLevel;
    thisLevel, rankSamples', rankLevel := ScanLevel(a[lo..hi], k, rankSamples);
    onesLevel' := onesLevel + [rankLevel];
    var remaining := size - |thisLevel|;
    bv' := bv + thisLevel;
    bv' := bv' + ZeroBits(remaining);
    StablePartitionOf2(a, lo, hi, k);
  }

  /**
   * The inner loop of `new`: bit `k` of every symbol of the slice, a sample
   * of the ones seen so far at every position `i` with
   * `i % RANK_SAMPLE_SIZE == 0`, and the count of ones.
   */
  method ScanLevel(sequence: seq<nat>, k: nat, rankSamples: seq<nat>)
    returns (thisLevel: seq<bool>, rankSamples': seq<nat>, rankLevel: nat)
    ensures thisLevel == LevelBits(sequence, k)
    ensures rankSamples' == rankSamples + LevelSamples(sequence, k, NumBlocks(|sequence|, RankSampleSize))
    ensures rankLevel == LevelRank(sequence, k, |sequence|)
  {
    thisLevel, rankSamples', rankLevel := [], rankSamples, 0;
    for i := 0 to |sequence|
      invariant thisLevel == LevelBits(sequence[..i], k)
      invariant rankSamples' == rankSamples + LevelSamples(sequence, k, NumBlocks(i, RankSampleSize))
      invariant rankLevel == LevelRank(sequence, k, i)
    {
      ghost var before := rankSamples';
      if i % RankSampleSize == 0 {
        rankSamples' := rankSamples' + [rankLevel];
      }
      SampleStep(sequence, k, i, rankSamples, before, rankLevel, rankSamples');
      var bit := Shr(sequence[i], k) % 2 == 1;
      BitIsShr(sequence[i], k);
      assert sequence[..i + 1] == sequence[..i] + [sequence[i]];
      thisLevel := thisLevel + [bit];
      LevelRankSucc(sequence, k, i);
      if bit {
        rankLevel := rankLevel + 1;
      }
    }
    assert sequence[..|sequence|] == sequence;
  }

  /** `len`, `is_empty` and `n_levels` report what was built. */
  lemma Accessors(t: TinyWT, s: seq<nat>)
    requires Encodes(t, s)
    ensures t.n == |s|
    ensures t.n == 0 <==> s == []
    ensures t.nLevels == BitLength(Max(s))
    ensures |t.onesLevel| == t.nLevels
  {
    var os := OrdersExist(s, t.nLevels);
    assert Fits(os, t.size);
  }

  /**
   * `get_level_pos(l, index)`: bit `index` of level `l`, at `l * SIZE + index`.
   * It is set exactly when `rank1` grows by one across that position.
   */
  function GetLevelPos(t: TinyWT, l: nat, index: nat): (b: bool)
    requires Offset(l, t.size) + index < |t.data|
    ensures b <==> Rank1(t.data, Offset(l, t.size) + index + 1) == Rank1(t.data, Offset(l, t.size) + index) + 1
  {
    t.data[Offset(l, t.size) + index]
  }

  /** The bit `get_level_pos` reads under the cursor is bit `k` of the symbol there. */
  lemma LevelPosBit(t: TinyWT, s: seq<nat>, os: seq<seq<nat>>, l: nat, cur: nat, k: nat)
    requires Tiny.Encodes(Core(t), s) && LevelOrders(s, t.nLevels, os)
    requires l < t.nLevels && cur < |os[l]| && k == t.nLevels - (l + 1)
    ensures Offset(l, t.size) + cur < |t.data|
    ensures GetLevelPos(t, l, cur) == Bit(os[l][cur], k)
  {
    Tiny.LevelBit(Core(t), s, os, l, cur, k);
  }

  /** `ones_level[l]` is the number of ones of level `l`. */
  lemma OnesRead(t: TinyWT, s: seq<nat>, os: seq<seq<nat>>, l: nat, k: nat)
    requires Encodes(t, s) && LevelOrders(s, t.nLevels, os)
    requires l < t.nLevels && k == t.nLevels - (l + 1)
    ensures l < |t.onesLevel| && t.onesLevel[l] == LevelRank(os[l], k, |os[l]|)
  {
    assert Fits(os, t.size);
    OnesAt(os, t.nLevels, l);
  }

  /** `ones_level[l]` is the number of ones among the first `n` positions of level `l` of the bit array. */
  lemma OnesLevelCounts(t: TinyWT, s: seq<nat>, os: seq<seq<nat>>, l: nat, k: nat)
    requires Encodes(t, s) && LevelOrders(s, t.nLevels, os)
    requires l < t.nLevels && k == t.nLevels - (l + 1)
    ensures l < |t.onesLevel| && Offset(l, t.size) + t.n <= |t.data|
    ensures t.onesLevel[l] == CountTrue(t.data[Offset(l, t.size)..Offset(l, t.size) + t.n])
  {
    assert os[l] == Order(s, t.nLevels, l);
    var r := LevelRank(os[l], k, t.n);
    OnesRead(t, s, os, l, k);
    assert t.onesLevel[l] == r;
    Tiny.LevelOnesRank(Core(t), s, os, l, k);
  }

  /** Sample `b` of level `l`, at `l * blocks_per_level + b`, counts the ones before `b * RANK_SAMPLE_SIZE`. */
  lemma SampleRead(t: TinyWT, s: seq<nat>, os: seq<seq<nat>>, l: nat, b: nat, k: nat)
    requires Encodes(t, s) && LevelOrders(s, t.nLevels, os)
    requires l < t.nLevels && Offset(b, RankSampleSize) < t.n && k == t.nLevels - (l + 1)
    ensures Offset(l, NumBlocks(t.n, RankSampleSize)) + b < |t.rankSamples|
    ensures t.rankSamples[Offset(l, NumBlocks(t.n, RankSampleSize)) + b] == LevelRank(os[l], k, Offset(b, RankSampleSize))
  {
    assert Fits(os, t.size);
    BlockExists(t.n, RankSampleSize, b);
    SampleAt(os, NumBlocks(t.n, RankSampleSize), t.nLevels, l, b);
  }

  /** The ones in positions `[from, to)` of level `l` are the difference of the level-local ranks. */
  lemma WindowOnes(t: TinyWT, s: seq<nat>, os: seq<seq<nat>>, l: nat, from: nat, to: nat, k: nat)
    requires Tiny.Encodes(Core(t), s) && LevelOrders(s, t.nLevels, os)
    requires l < t.nLevels && from <= to <= t.size && k == t.nLevels - (l + 1)
    ensures Offset(l, t.size) + to <= |t.data|
    ensures LevelRank(os[l], k, from) + CountTrue(t.data[Offset(l, t.size) + from..Offset(l, t.size) + to])
         == LevelRank(os[l], k, to)
  {
    Tiny.LevelWindow(Core(t), s, os, l, from, to, k);
  }

  /**
   * The quantities `rank_level_pos(l, index)` works with: `blocks_per_level`
   * is the number of sample blocks of a level, the sample of the block of
   * `index` exists, and it plus the ones from the block's start `start` up
   * to `actual = l * SIZE + index` is the rank of `index` inside level `l`.
   */
  lemma SampledRank(t: TinyWT, s: seq<nat>, os: seq<seq<nat>>, l: nat, index: nat, k: nat,
                    b: nat, start: nat, actual: nat)
    requires Encodes(t, s) && LevelOrders(s, t.nLevels, os)
    requires l < t.nLevels && index < t.n && k == t.nLevels - (l + 1)
    requires b == index / RankSampleSize
    requires start == Offset(l, t.size) + Offset(b, RankSampleSize) && actual == Offset(l, t.size) + index
    ensures (t.n - 1) / RankSampleSize + 1 == NumBlocks(t.n, RankSampleSize)
    ensures Offset(l, NumBlocks(t.n, RankSampleSize)) + b < |t.rankSamples|
    ensures start <= actual <= |t.data|
    ensures t.rankSamples[Offset(l, NumBlocks(t.n, RankSampleSize)) + b] + CountTrue(t.data[start..actual])
         == LevelRank(os[l], k, index)
  {
    BlocksPerLevel(t.n);
    DivIsOffset(index, RankSampleSize);
    SampleRead(t, s, os, l, b, k);
    WindowOnes(t, s, os, l, Offset(b, RankSampleSize), index, k);
  }

  /**
   * `rank_level_pos(l, index)`: the sample of the block of `index`, plus the
   * ones of the words from the block's start up to `index`.  It is the rank
   * of `index` inside level `l`.
   */
  method RankLevelPos(t: TinyWT, ghost s: seq<nat>, ghost os: seq<seq<nat>>, l: nat, index: nat)
    returns (r: nat)
    requires Encodes(t, s) && LevelOrders(s, t.nLevels, os)
    requires l < t.nLevels && index < t.n
    ensures r == LevelRank(os[l], t.nLevels - (l + 1), index)
  {
    var actualPos := Offset(l, t.size) + index;
    var blocksPerLevel := (t.n - 1) / RankSampleSize + 1;
    var b := index / RankSampleSize;
    var p := Offset(l, t.size) + Offset(b, RankSampleSize);
    SampledRank(t, s, os, l, index, t.nLevels - (l + 1), b, p, actualPos);
    var rSample := t.rankSamples[Offset(l, blocksPerLevel) + b];
    var words := CountWords(t.data, p, actualPos);
    return rSample + words;
  }

  /**
   * The word loop of `rank_level_pos`: from `p` up to `actual`, read at most
   * 64 bits at a time and add up their ones.
   */
  method CountWords(data: seq<bool>, p0: nat, actual: nat) returns (words: nat)
    requires p0 <= actual <= |data|
    ensures words == CountTrue(data[p0..actual])
  {
    words := 0;
    var p := p0;
    while p < actual
      invariant p0 <= p && words == CountTrue(data[p0..Min(p, actual)])
      decreases actual - p
    {
      var len := Min(64, actual - p);
      CountTrueSplit(data, p0, p, p + len);
      words := words + CountTrue(data[p..p + len]);
      p := p + 64;
    }
  }

  /**
   * One round of the descent: the bit read is bit `k` of the symbol under
   * the cursor, and the next cursor, `rank + (n - ones_level[l])` after a 1
   * and `cur - rank` after a 0, points at the same symbol in the next level.
   */
  lemma LevelStep(t: TinyWT, s: seq<nat>, os: seq<seq<nat>>, l: nat, cur: nat, k: nat,
                  bit: bool, zeros: int, rank: int, next: int)
    requires Encodes(t, s) && LevelOrders(s, t.nLevels, os)
    requires l < t.nLevels && cur < |os[l]| && k == t.nLevels - (l + 1)
    requires l < |t.onesLevel| && t.onesLevel[l] == LevelRank(os[l], k, |os[l]|)
    requires bit == Bit(os[l][cur], k)
    requires zeros == |os[l]| - t.onesLevel[l]
    requires rank == LevelRank(os[l], k, cur)
    requires next == if bit then rank + zeros else cur - rank
    ensures 0 <= next < |os[l]|
    ensures l + 1 < t.nLevels ==> |os[l + 1]| == |os[l]| && os[l + 1][next] == os[l][cur]
  {
    NextCursor(s, t.nLevels, os, l, k, cur, next);
  }

  /**
   * `get_unchecked(i)`: the descent with the stored ones of each level and
   * the sampled rank.  For every `i < n` it returns the `i`-th symbol of the
   * encoded sequence.
   */
  method GetUnchecked(t: TinyWT, ghost s: seq<nat>, i: nat) returns (r: nat)
    requires Encodes(t, s) && i < t.n
    ensures r == s[i]
  {
    ghost var os := OrdersExist(s, t.nLevels);
    var curI: nat := i;
    var result: nat := 0;
    assert s[i] in s;
    SymbolFits(s[i], Max(s));
    for l := 0 to t.nLevels
      invariant curI < t.n && (l < t.nLevels ==> |os[l]| == t.n && os[l][curI] == s[i])
      invariant result == Shr(s[i], t.nLevels - l)
    {
      ghost var cur := curI;
      ghost var k := t.nLevels - (l + 1);
      LevelPosBit(t, s, os, l, curI, k);
      OnesRead(t, s, os, l, k);
      var bit := GetLevelPos(t, l, curI);
      var shifted := result * 2 + (if bit then 1 else 0);
      ShiftIn(s[i], k, t.nLevels - l, result, bit, shifted);
      result := shifted;
      var zerosInLevel := t.n - t.onesLevel[l];
      var rank := RankLevelPos(t, s, os, l, curI);
      curI := if bit then rank + zerosInLevel else curI - rank;
      LevelStep(t, s, os, l, cur, k, bit, zerosInLevel, rank, curI);
    }
    return result;
  }

  /**
   * The guard of `get` as written: it refuses `i > SIZE` and `i > n`, so
   * it lets `i == n` through.
   */
  predicate GetAdmits(t: TinyWT, i: nat)
  {
    !(i > t.size || i > t.n)
  }

  /**
   * On a tree built from `s` the written guard admits `i == n`.  When `n` is
   * a multiple of `RANK_SAMPLE_SIZE`, the descent from `n` then reads rank
   * sample `l * blocks_per_level + n / RANK_SAMPLE_SIZE`, which is the first
   * sample of level `l + 1`, or one past the end of the samples in the last
   * level.
   */
  lemma GetAdmitsPastEnd(t: TinyWT, s: seq<nat>, l: nat)
    requires Encodes(t, s) && |s| > 0 && |s| % RankSampleSize == 0
    ensures GetAdmits(t, |s|)
    ensures var blocksPerLevel := (|s| - 1) / RankSampleSize + 1;
            Offset(l, blocksPerLevel) + |s| / RankSampleSize == Offset(l + 1, blocksPerLevel)
    ensures l + 1 == t.nLevels ==>
              Offset(l, (|s| - 1) / RankSampleSize + 1) + |s| / RankSampleSize == |t.rankSamples|
  {
    var n := |s|;
    BlocksPerLevel(n);
    DivIsOffset(n, RankSampleSize);
    BlocksOfLength(n, RankSampleSize, n / RankSampleSize);
    var os := OrdersExist(s, t.nLevels);
    assert Fits(os, t.size);
  }

  /** `get(i)` with the bound `i < n` it evidently intends. */
  method Get(t: TinyWT, ghost s: seq<nat>, i: nat) returns (r: Option<nat>)
    requires Encodes(t, s)
    ensures r.Some? <==> i < |s|
    ensures r.Some? ==> r.value == s[i]
  {
    if i > t.size || i >= t.n {
      return None;
    }
    var x := GetUnchecked(t, s, i);
    return Some(x);
  }
}
