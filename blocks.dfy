/**
 * A sequence made of consecutive blocks of one width: the level-major bit
 * array (one block of `SIZE` bits per level), the rank-sample array (one block
 * of samples per level) and the forest's buffer (one block of symbols per tiny
 * tree).
 */
module Blocks {

  /**
   * `l * w`, the start of block `l`, written as repeated addition so that
   * proofs about block positions stay within linear arithmetic.
   */
  function Offset(l: nat, w: nat): nat
  {
    if l == 0 then 0 else Offset(l - 1, w) + w
  }

  /** The offset is the product the library computes. */
  lemma {:induction false} OffsetIsProduct(l: nat, w: nat)
    ensures Offset(l, w) == l * w
  {
    if l > 0 {
      OffsetIsProduct(l - 1, w);
    }
  }

  /** Later blocks start later. */
  lemma {:induction false} OffsetMono(a: nat, b: nat, w: nat)
    requires a <= b
    ensures Offset(a, w) <= Offset(b, w)
  {
    if a < b {
      OffsetMono(a, b - 1, w);
    }
  }

  /** Number of blocks of width `w` that cover `n` symbols, the last one possibly shorter. */
  function NumBlocks(n: nat, w: nat): nat
    requires w > 0
  {
    if n == 0 then 0 else 1 + NumBlocks(if n < w then 0 else n - w, w)
  }

  /** Division as the library computes it, in terms of block offsets. */
  lemma DivIsOffset(n: nat, w: nat)
    requires w > 0
    ensures n == Offset(n / w, w) + n % w && n % w < w
  {
    OffsetIsProduct(n / w, w);
  }

  /** Block `b` exists exactly when it starts before the end of the sequence. */
  lemma {:induction false} BlockExists(n: nat, w: nat, b: nat)
    requires w > 0
    ensures b < NumBlocks(n, w) <==> Offset(b, w) < n
  {
    if n > 0 && b > 0 {
      BlockExists(if n < w then 0 else n - w, w, b - 1);
    }
  }

  /**
   * `full` blocks fit and the next does not: there are `full` blocks, and one
   * more when a non-empty remainder is left over.
   */
  lemma BlocksOfLength(n: nat, w: nat, full: nat)
    requires w > 0 && Offset(full, w) <= n < Offset(full + 1, w)
    ensures NumBlocks(n, w) == full + (if Offset(full, w) < n then 1 else 0)
  {
    BlockExists(n, w, full);
    BlockExists(n, w, full + 1);
    if full > 0 {
      BlockExists(n, w, full - 1);
    }
  }

  /** One more element opens a new block exactly when it starts one (`i % w == 0`). */
  lemma NumBlocksSucc(i: nat, w: nat)
    requires w > 0
    ensures NumBlocks(i + 1, w) == NumBlocks(i, w) + (if i % w == 0 then 1 else 0)
    ensures i % w == 0 ==> Offset(NumBlocks(i, w), w) == i
  {
    var q := i / w;
    DivIsOffset(i, w);
    BlocksOfLength(i, w, q);
    if i % w + 1 < w {
      BlocksOfLength(i + 1, w, q);
    } else {
      BlocksOfLength(i + 1, w, q + 1);
    }
  }
}
