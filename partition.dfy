/**
 * Stable partition of a buffer of symbols by one bit: the symbols whose bit
 * `k` is 0, in their order, followed by those whose bit `k` is 1, in their
 * order.  This is the library routine `stable_partition_of_2` that the tiny
 * tree's construction calls once per level.
 */
module StablePartition {
  import opened Bits

  /** The symbols of `s` whose bit `k` equals `b`, in the order of `s`. */
  function Group(s: seq<nat>, k: nat, b: bool): (g: seq<nat>)
    ensures |g| <= |s|
  {
    if s == [] then []
    else Group(s[..|s| - 1], k, b) + (if Bit(s[|s| - 1], k) == b then [s[|s| - 1]] else [])
  }

  /** Zeros first, ones second, each group in its original order. */
  function Partition(s: seq<nat>, k: nat): (p: seq<nat>)
    ensures |p| == |s|
  {
    GroupsSplit(s, k);
    Group(s, k, false) + Group(s, k, true)
  }

  /** The two groups split the sequence: no symbol is lost or duplicated. */
  lemma {:induction false} GroupsSplit(s: seq<nat>, k: nat)
    ensures |Group(s, k, false)| + |Group(s, k, true)| == |s|
  {
    if s != [] {
      GroupsSplit(s[..|s| - 1], k);
    }
  }

  /** ... and together they hold exactly the symbols of the sequence. */
  lemma {:induction false} GroupsPermute(s: seq<nat>, k: nat)
    ensures multiset(Group(s, k, false)) + multiset(Group(s, k, true)) == multiset(s)
  {
    if s != [] {
      var init := s[..|s| - 1];
      GroupsPermute(init, k);
      assert s == init + [s[|s| - 1]];
    }
  }

  /** The partition is a permutation of its input. */
  lemma PartitionPermutes(s: seq<nat>, k: nat)
    ensures |Partition(s, k)| == |s|
    ensures multiset(Partition(s, k)) == multiset(s)
  {
    GroupsSplit(s, k);
    GroupsPermute(s, k);
  }

  /** Stability: the group of a prefix is a prefix of the group. */
  lemma {:induction false} GroupPrefix(s: seq<nat>, m: nat, k: nat, b: bool)
    requires m <= |s|
    ensures |Group(s[..m], k, b)| <= |Group(s, k, b)|
    ensures Group(s, k, b)[..|Group(s[..m], k, b)|] == Group(s[..m], k, b)
  {
    if m < |s| {
      var init := s[..|s| - 1];
      assert init[..m] == s[..m];
      GroupPrefix(init, m, k, b);
    } else {
      assert s[..m] == s;
    }
  }

  /** A buffer that was a rearrangement of `s` still is one after a partition. */
  lemma PartitionKeeps(x: seq<nat>, y: seq<nat>, s: seq<nat>, k: nat)
    requires y == Partition(x, k) && multiset(x) == multiset(s)
    ensures multiset(y) == multiset(s)
  {
    PartitionPermutes(x, k);
  }

  /**
   * Where the symbol at position `j` lands after the partition: the number of
   * zeros before it if its bit is 0, the number of all zeros plus the number
   * of ones before it if its bit is 1.
   */
  function Landing(s: seq<nat>, k: nat, j: nat): nat
    requires j < |s|
  {
    var ones := |Group(s[..j], k, true)|;
    if Bit(s[j], k) then ones + |Group(s, k, false)| else j - ones
  }

  /**
   * The rank-based remapping of a cursor used by access: it stays inside the
   * sequence and points at the same symbol after the partition.
   */
  lemma DescentStep(s: seq<nat>, k: nat, j: nat)
    requires j < |s|
    ensures |Partition(s, k)| == |s|
    ensures Landing(s, k, j) < |s|
    ensures Partition(s, k)[Landing(s, k, j)] == s[j]
  {
    var b := Bit(s[j], k);
    var before := s[..j];
    var upto := s[..j + 1];
    assert upto[..j] == before;
    assert Group(upto, k, b) == Group(before, k, b) + [s[j]];
    GroupPrefix(s, j + 1, k, b);
    GroupsSplit(before, k);
    GroupsSplit(s, k);
    assert Group(s, k, b)[|Group(before, k, b)|] == s[j];
  }

  /** Extending the sequence by one symbol extends exactly one of its groups. */
  lemma GroupSnoc(done: seq<nat>, x: nat, k: nat)
    ensures Group(done + [x], k, true) == Group(done, k, true) + (if Bit(x, k) then [x] else [])
    ensures Group(done + [x], k, false) == Group(done, k, false) + (if Bit(x, k) then [] else [x])
  {
    assert (done + [x])[..|done|] == done;
  }

  /** One pass over `s` that buffers the zero-group and the one-group. */
  method SplitGroups(s: seq<nat>, k: nat) returns (zeros: seq<nat>, ones: seq<nat>)
    ensures zeros == Group(s, k, false) && ones == Group(s, k, true)
    ensures |zeros| + |ones| == |s|
  {
    zeros, ones := [], [];
    for i := 0 to |s|
      invariant zeros == Group(s[..i], k, false)
      invariant ones == Group(s[..i], k, true)
    {
      assert s[..i + 1] == s[..i] + [s[i]];
      GroupSnoc(s[..i], s[i], k);
      if Bit(s[i], k) {
        ones := ones + [s[i]];
      } else {
        zeros := zeros + [s[i]];
      }
    }
    assert s[..|s|] == s;
    GroupsSplit(s, k);
  }

  /**
   * `stable_partition_of_2(sequence[lo..hi], k)`, in place: the segment is
   * replaced by its stable partition and nothing outside it changes.  The
   * library routine is not part of this model; this implementation buffers
   * both groups and writes them back.
   */
  method StablePartitionOf2(a: array<nat>, lo: nat, hi: nat, k: nat)
    requires lo <= hi <= a.Length
    modifies a
    ensures a[lo..hi] == Partition(old(a[lo..hi]), k)
    ensures a[..lo] == old(a[..lo]) && a[hi..] == old(a[hi..])
  {
    var zeros, ones := SplitGroups(a[lo..hi], k);
    WriteSegment(a, lo, zeros + ones);
  }

  /** Overwrites `a[lo..lo + |src|]` with `src`; nothing else changes. */
  method WriteSegment(a: array<nat>, lo: nat, src: seq<nat>)
    requires lo + |src| <= a.Length
    modifies a
    ensures a[lo..lo + |src|] == src
    ensures a[..lo] == old(a[..lo]) && a[lo + |src|..] == old(a[lo + |src|..])
  {
    for j := 0 to |src|
      invariant a[lo..lo + j] == src[..j]
      invariant a[..lo] == old(a[..lo]) && a[lo + |src|..] == old(a[lo + |src|..])
    {
      a[lo + j] := src[j];
    }
  }
}
