/**
 * The rank support of the sampled tiny wavelet tree, as functions of the
 * level orders: every `RANK_SAMPLE_SIZE` positions of a level, the number of
 * ones the level holds before that position, and for every level the number
 * of ones it holds in all.
 */
module RankSamples {
  import opened Bits
  import opened Blocks
  import opened Layout

  /** `RANK_SAMPLE_SIZE`: a rank sample every 512 positions of a level. */
  const RankSampleSize: nat := 512

  /**
   * The first `w` samples of a level whose order is `o`, by bit `k`: sample
   * `b` counts the ones before position `b * RANK_SAMPLE_SIZE`.
   */
  function LevelSamples(o: seq<nat>, k: nat, w: nat): (r: seq<nat>)
    ensures |r| == w
  {
    if w == 0 then []
    else LevelSamples(o, k, w - 1) + [LevelRank(o, k, Offset(w - 1, RankSampleSize))]
  }

  /** Sample `b` of a level counts the ones before position `b * RANK_SAMPLE_SIZE`. */
  lemma {:induction false} LevelSampleAt(o: seq<nat>, k: nat, w: nat, b: nat)
    requires b < w
    ensures LevelSamples(o, k, w)[b] == LevelRank(o, k, Offset(b, RankSampleSize))
  {
    if b < w - 1 {
      LevelSampleAt(o, k, w - 1, b);
    }
  }

  /**
   * `rank_samples` after the first `m` levels: `w` samples per level, level
   * `l` looking at bit `|os| - 1 - l` of its order `os[l]`.
   */
  function SampleTable(os: seq<seq<nat>>, w: nat, m: nat): (r: seq<nat>)
    requires m <= |os|
    ensures |r| == Offset(m, w)
  {
    if m == 0 then []
    else SampleTable(os, w, m - 1) + LevelSamples(os[m - 1], |os| - m, w)
  }

  /** `ones_level` after the first `m` levels: the ones of each level. */
  function OnesTable(os: seq<seq<nat>>, m: nat): (r: seq<nat>)
    requires m <= |os|
    ensures |r| == m
  {
    if m == 0 then []
    else OnesTable(os, m - 1) + [LevelRank(os[m - 1], |os| - m, |os[m - 1]|)]
  }

  /** Sample `b` of level `l` sits at `l * blocks_per_level + b`. */
  lemma {:induction false} SampleAt(os: seq<seq<nat>>, w: nat, m: nat, l: nat, b: nat)
    requires l < m <= |os| && b < w
    ensures Offset(l, w) + b < Offset(m, w)
    ensures SampleTable(os, w, m)[Offset(l, w) + b] == LevelRank(os[l], |os| - 1 - l, Offset(b, RankSampleSize))
  {
    if l < m - 1 {
      SampleAt(os, w, m - 1, l, b);
      OffsetMono(l + 1, m - 1, w);
    } else {
      LevelSampleAt(os[l], |os| - 1 - l, w, b);
    }
  }

  /** Entry `l` of the ones table is the number of ones of level `l`. */
  lemma {:induction false} OnesAt(os: seq<seq<nat>>, m: nat, l: nat)
    requires l < m <= |os|
    ensures OnesTable(os, m)[l] == LevelRank(os[l], |os| - 1 - l, |os[l]|)
  {
    if l < m - 1 {
      OnesAt(os, m - 1, l);
    }
  }

  /**
   * The scan's step at position `i` of a level: a sample is pushed exactly
   * when `i % RANK_SAMPLE_SIZE == 0`, and it is the ones before `i`.
   * `before`, `rank` and `after` stand for the scan's table and counter
   * before and after the step.
   */
  lemma SampleStep(o: seq<nat>, k: nat, i: nat, base: seq<nat>, before: seq<nat>, rank: nat, after: seq<nat>)
    requires before == base + LevelSamples(o, k, NumBlocks(i, RankSampleSize))
    requires rank == LevelRank(o, k, i)
    requires after == if i % RankSampleSize == 0 then before + [rank] else before
    ensures after == base + LevelSamples(o, k, NumBlocks(i + 1, RankSampleSize))
  {
    NumBlocksSucc(i, RankSampleSize);
  }

  /**
   * The construction's step for the samples: appending the samples of level
   * `l`, whose order is `prev`; `table` stands for the table after the push.
   */
  lemma SamplesAppended(os: seq<seq<nat>>, w: nat, l: nat, k: nat, prev: seq<nat>, table: seq<nat>)
    requires l < |os| && k == |os| - 1 - l && prev == os[l]
    requires table == SampleTable(os, w, l) + LevelSamples(prev, k, w)
    ensures table == SampleTable(os, w, l + 1)
  {
  }

  /**
   * The construction's step for the ones table: appending the ones of level
   * `l`, whose order is `prev`; `m` and `table` stand for the level's length
   * and the table after the push.
   */
  lemma OnesAppended(os: seq<seq<nat>>, l: nat, k: nat, prev: seq<nat>, m: nat, table: seq<nat>)
    requires l < |os| && k == |os| - 1 - l && prev == os[l]
    requires m == |prev| && table == OnesTable(os, l) + [LevelRank(prev, k, m)]
    ensures table == OnesTable(os, l + 1)
  {
  }

  /**
   * The three tables the construction has built after `l` levels: the bits
   * (padded to `size` per level), `rank_samples` (`w` per level) and
   * `ones_level`.
   */
  ghost predicate Tables(os: seq<seq<nat>>, size: nat, w: nat, l: nat,
                         bv: seq<bool>, samples: seq<nat>, ones: seq<nat>)
  {
    && Fits(os, size) && l <= |os|
    && bv == DataBits(os, size, l) && samples == SampleTable(os, w, l) && ones == OnesTable(os, l)
  }

  /**
   * One round of the construction on all three tables: the bits, the
   * samples and the ones of the first `l + 1` levels are those of the first
   * `l` with level `l` (order `prev`, of length `m`) appended.
   */
  lemma TablesAppended(os: seq<seq<nat>>, size: nat, w: nat, l: nat, k: nat, prev: seq<nat>, m: nat,
                       bv: seq<bool>, samples: seq<nat>, ones: seq<nat>)
    requires Fits(os, size) && l < |os| && k == |os| - 1 - l && prev == os[l] && m == |prev|
    requires bv == DataBits(os, size, l) && samples == SampleTable(os, w, l) && ones == OnesTable(os, l)
    ensures DataBits(os, size, l + 1) == bv + Padded(prev, k, size)
    ensures SampleTable(os, w, l + 1) == samples + LevelSamples(prev, k, w)
    ensures OnesTable(os, l + 1) == ones + [LevelRank(prev, k, m)]
  {
    DataBitsSucc(os, size, l, k);
    SamplesAppended(os, w, l, k, prev, samples + LevelSamples(prev, k, w));
    OnesAppended(os, l, k, prev, m, ones + [LevelRank(prev, k, m)]);
  }

  /** `(n - 1) / RANK_SAMPLE_SIZE + 1` is the number of sample blocks of a non-empty level. */
  lemma BlocksPerLevel(n: nat)
    requires n > 0
    ensures (n - 1) / RankSampleSize + 1 == NumBlocks(n, RankSampleSize)
  {
    var q := (n - 1) / RankSampleSize;
    DivIsOffset(n - 1, RankSampleSize);
    BlockExists(n, RankSampleSize, q);
    BlockExists(n, RankSampleSize, q + 1);
  }
}
