/**
 * The level-major layout of a tiny wavelet tree, as functions of the encoded
 * sequence `s`.  With `L` levels, level `l` (most significant bit first) looks
 * at bit `L - 1 - l` of the symbols in the order they have after the first `l`
 * stable partitions; its bits are padded with zeros to `size` and the levels
 * are laid end to end, level `l` at `[l * size, (l + 1) * size)`.
 */
module Layout {
  import opened Bits
  import opened StablePartition
  import opened Blocks

  /** Bit `k` of every symbol of `t`, in order (`this_level`). */
  function LevelBits(t: seq<nat>, k: nat): (b: seq<bool>)
    ensures |b| == |t|
  {
    seq(|t|, j requires 0 <= j < |t| => Bit(t[j], k))
  }

  /** A level as stored: its bits, then zeros up to `size`. */
  function Padded(t: seq<nat>, k: nat, size: nat): (p: seq<bool>)
    requires |t| <= size
    ensures |p| == size
  {
    LevelBits(t, k) + ZeroBits(size - |t|)
  }

  /** Bit `j` of a padded level. */
  lemma PaddedAt(t: seq<nat>, k: nat, size: nat, j: nat)
    requires |t| <= size && j < size
    ensures |Padded(t, k, size)| == size
    ensures Padded(t, k, size)[j] == (j < |t| && Bit(t[j], k))
  {
  }

  /** `n_levels = msb(max) + 1`; zero levels for the empty sequence. */
  function NLevels(s: seq<nat>): nat
  {
    BitLength(Max(s))
  }

  /** The buffer order at level `l`: the input after `l` stable partitions. */
  function Order(s: seq<nat>, levels: nat, l: nat): (o: seq<nat>)
    requires l <= levels
    ensures |o| == |s|
  {
    if l == 0 then s
    else
      var prev := Order(s, levels, l - 1);
      GroupsSplit(prev, levels - l);
      Partition(prev, levels - l)
  }

  /** One more level partitions the previous order by the next lower bit `k`. */
  lemma OrderSucc(s: seq<nat>, levels: nat, l: nat, k: nat)
    requires l < levels && k == levels - 1 - l
    ensures Order(s, levels, l + 1) == Partition(Order(s, levels, l), k)
  {
  }

  /**
   * Partitioning the order of level `l` by its bit gives the order of level
   * `l + 1`, still a permutation; `prev` and `next` stand for the buffer
   * segment before and after the partition.
   */
  lemma OrderStep(s: seq<nat>, levels: nat, l: nat, k: nat, prev: seq<nat>, next: seq<nat>)
    requires l < levels && k == levels - 1 - l
    requires prev == Order(s, levels, l) && multiset(prev) == multiset(s)
    requires next == Partition(prev, k)
    ensures next == Order(s, levels, l + 1) && multiset(next) == multiset(s)
  {
    OrderSucc(s, levels, l, k);
    PartitionKeeps(prev, next, s, k);
  }

  /** The order construction leaves the caller's buffer in. */
  function FinalOrder(s: seq<nat>): seq<nat>
  {
    Order(s, NLevels(s), NLevels(s))
  }

  /** The orders of all `levels` levels, level `l` at index `l`. */
  function Orders(s: seq<nat>, levels: nat): (os: seq<seq<nat>>)
    ensures |os| == levels
    ensures forall l :: 0 <= l < levels ==> os[l] == Order(s, levels, l)
  {
    seq(levels, l requires 0 <= l < levels => Order(s, levels, l))
  }

  /** Every level order fits in `size` bits. */
  ghost predicate Fits(os: seq<seq<nat>>, size: nat)
  {
    forall l :: 0 <= l < |os| ==> |os[l]| <= size
  }

  /**
   * The first `m` levels of the bit array laid end to end: level `l` holds
   * bit `|os| - 1 - l` of the symbols in order `os[l]`, padded to `size`.
   */
  function DataBits(os: seq<seq<nat>>, size: nat, m: nat): (d: seq<bool>)
    requires Fits(os, size) && m <= |os|
    ensures |d| == Offset(m, size)
  {
    if m == 0 then []
    else DataBits(os, size, m - 1) + Padded(os[m - 1], |os| - m, size)
  }

  /**
   * `os` lists the orders of the `levels` levels of `s`.  The link from
   * `os[l]` to its definition is made only where `Order(s, levels, l)` is
   * mentioned, so that proofs about the bit array see `os` as given.
   */
  ghost predicate LevelOrders(s: seq<nat>, levels: nat, os: seq<seq<nat>>)
  {
    && |os| == levels
    && forall l {:trigger Order(s, levels, l)} :: 0 <= l < levels ==> os[l] == Order(s, levels, l)
  }

  /** The orders of a sequence exist; each is as long as the sequence, and the first is the sequence. */
  lemma OrdersExist(s: seq<nat>, levels: nat) returns (os: seq<seq<nat>>)
    ensures LevelOrders(s, levels, os)
    ensures forall l :: 0 <= l < levels ==> |os[l]| == |s|
    ensures levels > 0 ==> os[0] == s
  {
    os := Orders(s, levels);
    assert levels > 0 ==> os[0] == Order(s, levels, 0);
  }

  /** The orders of a sequence are determined by it. */
  lemma OrdersUnique(s: seq<nat>, levels: nat, os: seq<seq<nat>>, os': seq<seq<nat>>)
    requires LevelOrders(s, levels, os) && LevelOrders(s, levels, os')
    ensures os == os'
  {
    forall l | 0 <= l < levels
      ensures os[l] == os'[l]
    {
      assert os[l] == Order(s, levels, l);
    }
  }

  /** Level `l + 1` holds the stable partition of level `l` by its bit `k`. */
  lemma OrdersStep(s: seq<nat>, levels: nat, os: seq<seq<nat>>, l: nat, k: nat)
    requires LevelOrders(s, levels, os) && l + 1 < levels && k == levels - 1 - l
    ensures os[l + 1] == Partition(os[l], k)
  {
    OrderSucc(s, levels, l, k);
  }

  /**
   * One more level appends the padded bits of its order; `k` is its bit,
   * `|os| - 1 - l`.  `DataBits` is recursive, so callers use this one-step
   * unfolding by name instead of relying on the solver to unfold it.
   */
  lemma DataBitsSucc(os: seq<seq<nat>>, size: nat, l: nat, k: nat)
    requires Fits(os, size) && l < |os| && k == |os| - 1 - l
    ensures DataBits(os, size, l + 1) == DataBits(os, size, l) + Padded(os[l], k, size)
  {
  }

  /** The construction's step: appending level `l`, in the order of level `l`, gives the first `l + 1` levels. */
  lemma LevelAppended(s: seq<nat>, levels: nat, os: seq<seq<nat>>, size: nat, l: nat, k: nat, bv: seq<bool>)
    requires LevelOrders(s, levels, os) && Fits(os, size) && l < levels && k == levels - 1 - l
    requires |Order(s, levels, l)| <= size
    requires bv == DataBits(os, size, l) + Padded(Order(s, levels, l), k, size)
    ensures bv == DataBits(os, size, l + 1)
  {
    DataBitsSucc(os, size, l, k);
  }

  /**
   * Bit `j` of level `l` sits at `l * size + j`: it is bit `|os| - 1 - l`
   * of the `j`-th symbol of the level's order, and zero in the padding.
   */
  lemma {:induction false} LevelBitAt(os: seq<seq<nat>>, size: nat, m: nat, l: nat, j: nat)
    requires Fits(os, size) && l < m <= |os| && j < size
    ensures Offset(l, size) + j < Offset(m, size)
    ensures DataBits(os, size, m)[Offset(l, size) + j]
         == (j < |os[l]| && Bit(os[l][j], |os| - 1 - l))
  {
    if l < m - 1 {
      LevelBitAt(os, size, m - 1, l, j);
    } else {
      PaddedAt(os[l], |os| - 1 - l, size, j);
    }
  }

  /**
   * Set bits among the first `j` positions of a level whose order is `o`,
   * by bit `k`; positions past the symbols are padding and add nothing.
   */
  function LevelRank(o: seq<nat>, k: nat, j: nat): (r: nat)
    ensures r <= j && r <= |o|
  {
    if j > |o| then LevelRank(o, k, |o|)
    else if j == 0 then 0
    else LevelRank(o, k, j - 1) + (if Bit(o[j - 1], k) then 1 else 0)
  }

  /** The level-local rank is the set bits of the level's first `j` bits. */
  lemma {:induction false} LevelRankIsCount(o: seq<nat>, k: nat, j: nat)
    ensures LevelRank(o, k, j) == CountTrue(LevelBits(o[..Min(j, |o|)], k))
  {
    if j > |o| {
      LevelRankIsCount(o, k, |o|);
    } else if j > 0 {
      LevelRankIsCount(o, k, j - 1);
      assert LevelBits(o[..j], k)[..j - 1] == LevelBits(o[..j - 1], k);
    }
  }

  /** One more position adds its bit to the level-local rank. */
  lemma LevelRankSucc(o: seq<nat>, k: nat, j: nat)
    requires j < |o|
    ensures LevelRank(o, k, j + 1) == LevelRank(o, k, j) + (if Bit(o[j], k) then 1 else 0)
  {
  }

  /** `rank1(j)` inside a padded level is its level-local rank; the padding adds nothing. */
  lemma PaddedRank(o: seq<nat>, k: nat, size: nat, j: nat)
    requires |o| <= size && j <= size
    ensures |Padded(o, k, size)| == size
    ensures Rank1(Padded(o, k, size), j) == LevelRank(o, k, j)
  {
    var p := Padded(o, k, size);
    Rank1IsCount(p, j);
    LevelRankIsCount(o, k, j);
    if j <= |o| {
      assert p[..j] == LevelBits(o[..j], k);
    } else {
      assert o[..|o|] == o;
      assert p[..j] == LevelBits(o, k) + ZeroBits(j - |o|);
      CountTrueAppend(LevelBits(o, k), ZeroBits(j - |o|));
      CountTrueZeroBits(j - |o|);
    }
  }

  /** Rank inside level `l`, the last of the first `l + 1` levels. */
  lemma RankInLastLevel(os: seq<seq<nat>>, size: nat, l: nat, j: nat, k: nat)
    requires Fits(os, size) && l < |os| && j <= size && k == |os| - 1 - l
    ensures Offset(l, size) + j <= Offset(l + 1, size)
    ensures Rank1(DataBits(os, size, l + 1), Offset(l, size) + j)
         == Rank1(DataBits(os, size, l + 1), Offset(l, size)) + LevelRank(os[l], k, j)
  {
    DataBitsSucc(os, size, l, k);
    PaddedRank(os[l], k, size, j);
    RankAcross(DataBits(os, size, l), Padded(os[l], k, size), DataBits(os, size, l + 1), Offset(l, size), j);
  }

  /** Later levels do not change `rank1` within the earlier ones. */
  lemma {:induction false} RankStable(os: seq<seq<nat>>, size: nat, l: nat, m: nat, x: nat)
    requires Fits(os, size) && l <= m <= |os| && x <= Offset(l, size)
    ensures Offset(l, size) <= Offset(m, size)
    ensures Rank1(DataBits(os, size, m), x) == Rank1(DataBits(os, size, l), x)
  {
    OffsetMono(l, m, size);
    if l < m {
      RankStable(os, size, l, m - 1, x);
      OffsetMono(l, m - 1, size);
      Rank1Prefix(DataBits(os, size, m - 1), Padded(os[m - 1], |os| - m, size), x);
    }
  }

  /**
   * In the whole bit array, `rank1(l * size + j)` is `rank1(l * size)`
   * plus the level-local rank of `j` in level `l`, whose bit is `k`.
   */
  lemma RankWithinLevel(os: seq<seq<nat>>, size: nat, l: nat, j: nat, k: nat)
    requires Fits(os, size) && l < |os| && j <= size && k == |os| - 1 - l
    ensures Offset(l, size) + j <= Offset(|os|, size)
    ensures Rank1(DataBits(os, size, |os|), Offset(l, size) + j)
         == Rank1(DataBits(os, size, |os|), Offset(l, size)) + LevelRank(os[l], k, j)
  {
    RankInLastLevel(os, size, l, j, k);
    RankStable(os, size, l + 1, |os|, Offset(l, size) + j);
    RankStable(os, size, l + 1, |os|, Offset(l, size));
  }

  /**
   * Past the end of the level's symbols the level-local rank is the level's
   * ones: the padding adds no set bits.
   */
  lemma LevelRankFull(o: seq<nat>, k: nat, j: nat)
    requires |o| <= j
    ensures LevelRank(o, k, j) == LevelRank(o, k, |o|)
  {
  }

  /**
   * The bit the descent reads in level `l` of the whole bit array `d`: bit
   * `k` of the symbol under the cursor.
   */
  lemma LevelBitRead(d: seq<bool>, os: seq<seq<nat>>, size: nat, l: nat, cur: nat, k: nat)
    requires Fits(os, size) && d == DataBits(os, size, |os|)
    requires l < |os| && cur < |os[l]| && k == |os| - 1 - l
    ensures Offset(l, size) + cur < Offset(l + 1, size) <= |d|
    ensures d[Offset(l, size) + cur] == Bit(os[l][cur], k)
  {
    OffsetMono(l + 1, |os|, size);
    LevelBitAt(os, size, |os|, l, cur);
  }

  /** Set bits of a level's bits are the symbols of the one-group. */
  lemma {:induction false} CountTrueIsOnes(t: seq<nat>, k: nat)
    ensures CountTrue(LevelBits(t, k)) == |Group(t, k, true)|
  {
    if t != [] {
      var init := t[..|t| - 1];
      assert LevelBits(t, k)[..|t| - 1] == LevelBits(init, k);
      CountTrueIsOnes(init, k);
    }
  }

  /** The level-local rank counts the symbols with bit 1 before position `j`. */
  lemma LevelRankCountsOnes(o: seq<nat>, k: nat, j: nat)
    requires j <= |o|
    ensures LevelRank(o, k, j) == |Group(o[..j], k, true)|
  {
    LevelRankIsCount(o, k, j);
    CountTrueIsOnes(o[..j], k);
  }

  /** The zeros of a level are the symbols of its zero-group. */
  lemma LevelZeros(o: seq<nat>, k: nat)
    ensures |o| - LevelRank(o, k, |o|) == |Group(o, k, false)|
  {
    LevelRankCountsOnes(o, k, |o|);
    assert o[..|o|] == o;
    GroupsSplit(o, k);
  }

  /**
   * One step of the descent on a level whose order is `o`: with `r` ones
   * before the cursor and `zeros` zeros in the level, the cursor moves to
   * `r + zeros` when its bit is 1 and to `cur - r` when it is 0; either way it
   * stays below `|o|` and points at the same symbol after the partition.
   */
  lemma RemapCursor(o: seq<nat>, k: nat, cur: nat, next: int)
    requires cur < |o|
    requires var r := LevelRank(o, k, cur);
             var zeros := |o| - LevelRank(o, k, |o|);
             next == if Bit(o[cur], k) then r + zeros else cur - r
    ensures 0 <= next < |o| && |Partition(o, k)| == |o| && Partition(o, k)[next] == o[cur]
  {
    LevelRankCountsOnes(o, k, cur);
    LevelZeros(o, k);
    assert next == Landing(o, k, cur);
    DescentStep(o, k, cur);
  }

  /**
   * The descent's cursor update between the orders of level `l` and level
   * `l + 1`: it stays inside the level and points at the same symbol.
   */
  lemma NextCursor(s: seq<nat>, levels: nat, os: seq<seq<nat>>, l: nat, k: nat, cur: nat, next: int)
    requires LevelOrders(s, levels, os) && l < levels && k == levels - 1 - l && cur < |os[l]|
    requires var r := LevelRank(os[l], k, cur);
             var zeros := |os[l]| - LevelRank(os[l], k, |os[l]|);
             next == if Bit(os[l][cur], k) then r + zeros else cur - r
    ensures 0 <= next < |os[l]|
    ensures l + 1 < levels ==> |os[l + 1]| == |os[l]| && os[l + 1][next] == os[l][cur]
  {
    RemapCursor(os[l], k, cur, next);
    if l + 1 < levels {
      OrdersStep(s, levels, os, l, k);
    }
  }
}
