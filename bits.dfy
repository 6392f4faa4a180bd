/**
 * Symbols as unbounded naturals, the bit operations the library applies to
 * them (`>>`, `& 1`, `msb`), and the bit-vector primitive's `rank1`.
 */
module Bits {

  function Min(a: nat, b: nat): nat { if a <= b then a else b }

  /** `x >> k`. */
  function Shr(x: nat, k: nat): (r: nat)
    ensures r <= x
  {
    if k == 0 then x else Shr(x / 2, k - 1)
  }

  /** `((x >> k) & 1) == 1`: bit `k` of `x`, counting from the least significant. */
  predicate Bit(x: nat, k: nat)
  {
    if k == 0 then x % 2 == 1 else Bit(x / 2, k - 1)
  }

  /** The bit is the low bit of the shifted value. */
  lemma {:induction false} BitIsShr(x: nat, k: nat)
    ensures Bit(x, k) == (Shr(x, k) % 2 == 1)
  {
    if k > 0 {
      BitIsShr(x / 2, k - 1);
    }
  }

  /** One more shift halves, and the bit dropped is bit `k`. */
  lemma {:induction false} ShrSucc(x: nat, k: nat)
    ensures Shr(x, k + 1) == Shr(x, k) / 2
    ensures Shr(x, k) == 2 * Shr(x, k + 1) + (if Bit(x, k) then 1 else 0)
  {
    if k > 0 {
      ShrSucc(x / 2, k - 1);
    }
  }

  /**
   * `(hi << 1) | b` rebuilds `x >> k` from `hi == x >> (k + 1)` and the bit
   * `b` of `x` at `k`: the step by which access reassembles a symbol.  The
   * parameters `k1`, `hi`, `b` and `r` stand for the caller's variables, so
   * that the caller's terms are matched as they are.
   */
  lemma ShiftIn(x: nat, k: nat, k1: nat, hi: nat, b: bool, r: nat)
    requires k1 == k + 1 && hi == Shr(x, k1) && b == Bit(x, k)
    requires r == 2 * hi + (if b then 1 else 0)
    ensures r == Shr(x, k)
  {
    ShrSucc(x, k);
  }

  /** Shifting right keeps the order of the shifted values. */
  lemma {:induction false} ShrMono(x: nat, y: nat, k: nat)
    requires y <= x
    ensures Shr(y, k) <= Shr(x, k)
  {
    if k > 0 {
      ShrMono(x / 2, y / 2, k - 1);
    }
  }

  /**
   * Number of bits needed to write `x`: `msb(x) + 1` for `x >= 1`.  The
   * result `r` is the position just above the most significant set bit.
   */
  function BitLength(x: nat): (r: nat)
    ensures r == 0 <==> x == 0
    ensures Shr(x, r) == 0
    ensures x > 0 ==> Bit(x, r - 1)
  {
    if x == 0 then 0 else 1 + BitLength(x / 2)
  }

  /** Every symbol not above `m` fits in `BitLength(m)` bits. */
  lemma SymbolFits(x: nat, m: nat)
    requires x <= m
    ensures Shr(x, BitLength(m)) == 0
  {
    ShrMono(m, x, BitLength(m));
  }

  /** `*sequence.iter().max().unwrap()`, and 0 for the empty sequence. */
  function Max(s: seq<nat>): (m: nat)
    ensures s != [] ==> m in s
    ensures forall x :: x in s ==> x <= m
  {
    if s == [] then 0
    else
      var m' := Max(s[..|s| - 1]);
      assert s == s[..|s| - 1] + [s[|s| - 1]];
      if s[|s| - 1] <= m' then m' else s[|s| - 1]
  }

  /** Number of set bits (the `count_ones` of a word, or of any bit run). */
  function CountTrue(b: seq<bool>): (c: nat)
    ensures c <= |b|
  {
    if b == [] then 0
    else CountTrue(b[..|b| - 1]) + (if b[|b| - 1] then 1 else 0)
  }

  /** The bit-vector primitive's `rank1(p)`: set bits in `[0, p)`. */
  function Rank1(b: seq<bool>, p: nat): (r: nat)
    requires p <= |b|
    ensures r <= p
  {
    if p == 0 then 0 else Rank1(b, p - 1) + (if b[p - 1] then 1 else 0)
  }

  /** `extend_with_zeros(m)`: a run of `m` unset bits. */
  function ZeroBits(m: nat): (z: seq<bool>)
    ensures |z| == m && forall j :: 0 <= j < m ==> !z[j]
  {
    seq(m, _ => false)
  }

  lemma {:induction false} CountTrueAppend(a: seq<bool>, b: seq<bool>)
    ensures CountTrue(a + b) == CountTrue(a) + CountTrue(b)
  {
    if b == [] {
      assert a + b == a;
    } else {
      assert (a + b)[..|a + b| - 1] == a + b[..|b| - 1];
      CountTrueAppend(a, b[..|b| - 1]);
    }
  }

  lemma {:induction false} CountTrueZeroBits(m: nat)
    ensures CountTrue(ZeroBits(m)) == 0
  {
    if m > 0 {
      assert ZeroBits(m)[..m - 1] == ZeroBits(m - 1);
      CountTrueZeroBits(m - 1);
    }
  }

  /** Set bits of `b[lo..hi]`, split at `mid`. */
  lemma CountTrueSplit(b: seq<bool>, lo: nat, mid: nat, hi: nat)
    requires lo <= mid <= hi <= |b|
    ensures CountTrue(b[lo..hi]) == CountTrue(b[lo..mid]) + CountTrue(b[mid..hi])
  {
    assert b[lo..hi] == b[lo..mid] + b[mid..hi];
    CountTrueAppend(b[lo..mid], b[mid..hi]);
  }

  /** `rank1(p)` is the number of set bits of the prefix `b[..p]`. */
  lemma {:induction false} Rank1IsCount(b: seq<bool>, p: nat)
    requires p <= |b|
    ensures Rank1(b, p) == CountTrue(b[..p])
  {
    if p > 0 {
      Rank1IsCount(b, p - 1);
      assert b[..p][..p - 1] == b[..p - 1];
    }
  }

  /** `rank1(q) - rank1(p)` counts the set bits of `[p, q)`. */
  lemma Rank1Split(b: seq<bool>, p: nat, q: nat)
    requires p <= q <= |b|
    ensures Rank1(b, q) == Rank1(b, p) + CountTrue(b[p..q])
  {
    Rank1IsCount(b, p);
    Rank1IsCount(b, q);
    CountTrueSplit(b, 0, p, q);
    assert b[0..q] == b[..q];
    assert b[0..p] == b[..p];
  }

  /** Two ranks counted from a common `base` differ by the set bits between them. */
  lemma CountBetween(b: seq<bool>, p: nat, q: nat, base: nat, rp: nat, rq: nat)
    requires p <= q <= |b| && Rank1(b, p) == base + rp && Rank1(b, q) == base + rq
    ensures rp + CountTrue(b[p..q]) == rq
  {
    Rank1Split(b, p, q);
  }

  /** Inside the first part of a concatenation, `rank1` only sees the first part. */
  lemma {:induction false} Rank1Prefix(p: seq<bool>, q: seq<bool>, x: nat)
    requires x <= |p|
    ensures Rank1(p + q, x) == Rank1(p, x)
  {
    if x > 0 {
      Rank1Prefix(p, q, x - 1);
    }
  }

  /** Inside the second part `q` of `d == p + q`, `rank1` grows by the rank within `q`. */
  lemma RankAcross(p: seq<bool>, q: seq<bool>, d: seq<bool>, x: nat, j: nat)
    requires d == p + q && x == |p| && j <= |q|
    ensures x + j <= |d|
    ensures Rank1(d, x + j) == Rank1(d, x) + Rank1(q, j)
  {
    Rank1Past(p, q, x + j);
    Rank1Past(p, q, x);
  }

  /** Past the first part of a concatenation, `rank1` counts all of it plus a rank in the second. */
  lemma {:induction false} Rank1Past(p: seq<bool>, q: seq<bool>, x: nat)
    requires |p| <= x <= |p| + |q|
    ensures Rank1(p + q, x) == Rank1(p, |p|) + Rank1(q, x - |p|)
  {
    if x == |p| {
      Rank1Prefix(p, q, x);
    } else {
      Rank1Past(p, q, x - 1);
    }
  }
}
