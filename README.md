# Tiny wavelet trees and the wavelet-tree forest, in Dafny

This project models the core of a compact sequence encoding: a bounded-capacity
"tiny" wavelet tree and a forest of them.

The tiny tree (`TinyWT`) stores a block of at most `SIZE` unsigned symbols as
one level-major bit array, in the wavelet-matrix layout:

- construction finds `n_levels`, the bit length of the largest symbol;
- for each level, most significant bit first, it emits that bit of every
  symbol in the buffer's current order, pads the level with zeros to `SIZE`,
  and stably partitions the caller's buffer in place by that bit;
- access (`get_unchecked`) walks down the levels with a cursor, shifts the bit
  under the cursor into the result, and remaps the cursor with rank: to
  `rank + zeros` after a 1, to `cur_i - rank` after a 0.

Two variants of the tiny tree are modelled. The one in `src/wt_forest/mod.rs`
asks an external bit vector for `rank1`. The one in `src/wt_forest/tinywt.rs`
keeps its own rank support: a sample of the ones every 512 positions of each
level (`rank_samples`), the ones of each level (`ones_level`), and a
word-by-word count from the nearest sample. The forest (`WTForest`) cuts the
input into `BLOCK_SIZE` chunks, the last one possibly shorter, builds one tiny
tree per chunk, and routes position `i` to tree `i / BLOCK_SIZE` at offset
`i % BLOCK_SIZE`.

Layout of the Dafny project:

- `bits.dfy` (`Bits`): symbols as naturals, `>>`, `& 1`, `msb + 1`, the maximum
  of a slice, and the bit vector's `rank1` over `seq<bool>`.
- `blocks.dfy` (`Blocks`): `l * w` as a block offset, and the number of blocks
  that cover `n` items.
- `partition.dfy` (`StablePartition`): the stable partition by one bit, as a
  function and as an in-place method on an array segment.
- `layout.dfy` (`Layout`): the level orders, the level-major bit array as a
  function of them, and the rank facts the descent needs. `LevelRank` counts a
  level's ones from its order alone, without building the bit array. It is
  what the samples and `ones_level` store. `RankWithinLevel` proves it equal
  to a difference of `Rank1` on the whole array. `CountTrue` counts a given
  run of bits, the words of the sampled rank. `|Group(o[..j], k, true)|`
  gives the landing position after the partition.
- `rank_samples.dfy` (`RankSamples`): `rank_samples` and `ones_level` as
  functions of the level orders.
- `tiny_wt.dfy` (`TinyWaveletTree`): the tree of `mod.rs`.
- `forest.dfy` (`Forest`): `WTForest`.
- `sampled_tiny_wt.dfy` (`SampledTinyWaveletTree`): the tree of `tinywt.rs`.

Both trees and the forest are immutable once built, so they are datatypes. Their
constructors are methods that work on an `array<nat>` segment `[lo, hi)`, which
stands for the `&mut [T]` slice the source partitions in place. Access is a
method with the source's loop. The encoded sequence `s` is a ghost parameter of
every access, tied to the tree by an `Encodes` predicate that `New` establishes.

## Model

| member | source | states |
|---|---|---|
| `Bits.BitLength` | src/wt_forest/mod.rs:49-51 | `msb(max) + 1`: the result is 0 only for 0, shifting by it leaves 0, and for a non-zero value the bit just below it is set |
| `Bits.Shr` | src/wt_forest/mod.rs:58 | `s >> k` on an unbounded natural: `k` halvings, never larger than `s` |
| `Bits.Bit` | src/wt_forest/mod.rs:58 | `((s >> k) & 1) == 1`: bit `k` of `s`; `Bits.BitIsShr` ties it to `Shr` |
| `Bits.Max` | src/wt_forest/mod.rs:49 | the largest symbol: it occurs in a non-empty slice and bounds every symbol |
| `Bits.SymbolFits` | src/wt_forest/mod.rs:49-51 | every symbol of the slice vanishes when shifted right by `n_levels`, so `n_levels` levels hold all its bits |
| `Bits.BitIsShr` | src/wt_forest/mod.rs:58 | the bit the construction emits, `((s >> k) & 1) == 1`, is bit `k` of `s` |
| `Bits.ShrSucc` | src/wt_forest/mod.rs:125 | one more shift halves the value, and the value is twice the next shift plus bit `k` |
| `Bits.ShiftIn` | src/wt_forest/mod.rs:125 | shifting the bit into the result turns `s >> (k + 1)` into `s >> k` when the bit is bit `k` of `s` |
| `Bits.Rank1` | src/wt_forest/mod.rs:127-131 | the bit vector's `rank1_unchecked(p)`: the set bits before `p`, never more than `p` |
| `Bits.Rank1Split` | src/wt_forest/mod.rs:127-131 | `rank1(q) - rank1(p)` is the number of set bits in `[p, q)` |
| `Bits.CountTrueSplit` | src/wt_forest/tinywt.rs:116-120 | the set bits of a range are those of its two parts, which lets the word loop count piece by piece |
| `Bits.CountTrue` | src/wt_forest/tinywt.rs:118 | `count_ones` of a word or bit run: the set bits, never more than its length |
| `Bits.ZeroBits` | src/wt_forest/mod.rs:63 | `extend_with_zeros(m)`: exactly `m` bits, all unset |
| `Blocks.OffsetIsProduct` | src/wt_forest/mod.rs:121 | the block offset used throughout is `l * SIZE` |
| `Blocks.DivIsOffset` | src/wt_forest/mod.rs:207 | `i == (i / w) * w + i % w` with `i % w < w` |
| `Blocks.BlockExists` | src/wt_forest/mod.rs:173-181 | block `b` exists exactly when it starts before the end of the sequence |
| `Blocks.BlocksOfLength` | src/wt_forest/mod.rs:173-181 | with `full` whole blocks there are `full` blocks, plus one exactly when a non-empty remainder is left |
| `Blocks.NumBlocksSucc` | src/wt_forest/tinywt.rs:59-62 | one more position opens a new sample block exactly when `i % RANK_SAMPLE_SIZE == 0` |
| `Blocks.NumBlocks` | src/wt_forest/mod.rs:173-181 | number of width-`w` blocks covering `n` items, the last possibly shorter; the forest's tree count and, with `w = 512`, the samples per level (src/wt_forest/tinywt.rs:59-62) |
| `StablePartition.Partition` | src/wt_forest/mod.rs:65 | the result of `stable_partition_of_2`: zeros then ones, as long as the input; the permutation and stability are `PartitionPermutes` and `GroupPrefix` |
| `StablePartition.Group` | src/wt_forest/mod.rs:65 | the symbols whose bit `k` is `b`, in input order, no more than the input |
| `StablePartition.GroupsSplit` | src/wt_forest/mod.rs:65 | the zero-group and the one-group together are as long as the input |
| `StablePartition.PartitionPermutes` | src/wt_forest/mod.rs:65 | the stable partition by a bit is a permutation of its input |
| `StablePartition.GroupPrefix` | src/wt_forest/mod.rs:65 | stability: the group of a prefix is a prefix of the group |
| `StablePartition.DescentStep` | src/wt_forest/mod.rs:135-139 | the symbol at `j` lands at `ones before j + zeros` after a 1 and `j - ones before j` after a 0, and it is found there after the partition |
| `StablePartition.Landing` | src/wt_forest/mod.rs:135-139 | where the symbol at `j` lands after the partition: ones before it plus all zeros after a 1, zeros before it after a 0 |
| `StablePartition.SplitGroups` | src/wt_forest/mod.rs:65 | one pass collects exactly the zero-group and the one-group, in order |
| `StablePartition.StablePartitionOf2` | src/wt_forest/mod.rs:65 | `stable_partition_of_2` in place: the segment becomes its stable partition by bit `k`, nothing outside it changes |
| `StablePartition.WriteSegment` | src/wt_forest/mod.rs:65 | writing back a segment changes that segment and nothing else |
| `Layout.PaddedAt` | src/wt_forest/mod.rs:61-63 | a stored level is `SIZE` bits: the symbols' bits, then zeros |
| `Layout.LevelBits` | src/wt_forest/mod.rs:55-59 | `this_level`: bit `k` of every symbol in buffer order, one bit per symbol |
| `Layout.Padded` | src/wt_forest/mod.rs:61-63 | a stored level: its bits followed by zeros, exactly `SIZE` bits |
| `Layout.NLevels` | src/wt_forest/mod.rs:49-51 | `n_levels = msb(max) + 1`, the bit length of the largest symbol |
| `Layout.OrderStep` | src/wt_forest/mod.rs:65 | partitioning the buffer of level `l` by its bit gives the buffer of level `l + 1`, still a permutation of the input |
| `Layout.OrdersExist` | src/wt_forest/mod.rs:53-68 | the level orders exist, each as long as the input, the first being the input |
| `Layout.OrdersUnique` | src/wt_forest/mod.rs:53-68 | the level orders are determined by the input |
| `Layout.OrdersStep` | src/wt_forest/mod.rs:65 | the order of level `l + 1` is the stable partition of the order of level `l` by bit `n_levels - 1 - l` |
| `Layout.FinalOrder` | src/wt_forest/mod.rs:53-68 | the caller's buffer after `new`: the input after all `n_levels` stable partitions |
| `Layout.DataBits` | src/wt_forest/mod.rs:53-68 | the built bit array `bv` after `m` levels: `m * SIZE` bits, level by level |
| `Layout.DataBitsSucc` | src/wt_forest/mod.rs:61-63 | each level appends its padded bits to the bit array |
| `Layout.LevelAppended` | src/wt_forest/mod.rs:55-63 | the bits the loop appends for level `l` extend the first `l` levels to the first `l + 1` |
| `Layout.LevelBitAt` | src/wt_forest/mod.rs:121 | bit `l * SIZE + j` is bit `n_levels - 1 - l` of the `j`-th symbol of level `l`'s order, and 0 in the padding |
| `Layout.LevelRank` | src/wt_forest/mod.rs:131 | the level-local rank is at most the position and at most the level's length |
| `Layout.LevelRankIsCount` | src/wt_forest/mod.rs:131 | the level-local rank is the number of set bits among the level's first `j` bits |
| `Layout.PaddedRank` | src/wt_forest/mod.rs:61-63 | inside a padded level `rank1` is the level-local rank; the padding adds nothing |
| `Layout.RankInLastLevel` | src/wt_forest/mod.rs:127-131 | in the first `l + 1` levels, `rank1(l * SIZE + j)` is `rank1(l * SIZE)` plus the rank of `j` in level `l` |
| `Layout.RankStable` | src/wt_forest/mod.rs:127 | later levels leave `rank1` of earlier positions unchanged |
| `Layout.RankWithinLevel` | src/wt_forest/mod.rs:127-131 | in the whole array, `rank1(l * SIZE + j) - rank1(l * SIZE)` is the rank of `j` inside level `l` |
| `Layout.LevelRankFull` | src/wt_forest/mod.rs:127 | past the level's symbols, the rank is the level's ones |
| `Layout.LevelBitRead` | src/wt_forest/mod.rs:121 | the bit the descent reads at `l * SIZE + cur` is bit `k` of the symbol under the cursor |
| `Layout.CountTrueIsOnes` | src/wt_forest/mod.rs:127-130 | the set bits of a level are its symbols with bit `k` set |
| `Layout.LevelRankCountsOnes` | src/wt_forest/mod.rs:131 | the rank before `j` counts the symbols before `j` whose bit is 1 |
| `Layout.LevelZeros` | src/wt_forest/mod.rs:130 | `n - ones` is the size of the level's zero-group |
| `Layout.RemapCursor` | src/wt_forest/mod.rs:135-139 | the cursor update stays below `n` and points at the same symbol after the partition |
| `Layout.NextCursor` | src/wt_forest/mod.rs:135-139 | the cursor update carries the cursor from level `l`'s order to the same symbol in level `l + 1`'s |
| `RankSamples.LevelSamples` | src/wt_forest/tinywt.rs:59-62 | a level has exactly `w` samples |
| `RankSamples.LevelSampleAt` | src/wt_forest/tinywt.rs:57-67 | sample `b` of a level counts its ones before `b * RANK_SAMPLE_SIZE` |
| `RankSamples.SampleTable` | src/wt_forest/tinywt.rs:51-61 | after `m` levels `rank_samples` holds `m * w` samples |
| `RankSamples.OnesTable` | src/wt_forest/tinywt.rs:52-70 | after `m` levels `ones_level` holds `m` counts |
| `RankSamples.SampleAt` | src/wt_forest/tinywt.rs:111 | `rank_samples[l * blocks_per_level + b]` exists and counts level `l`'s ones before `b * RANK_SAMPLE_SIZE` |
| `RankSamples.OnesAt` | src/wt_forest/tinywt.rs:70 | `ones_level[l]` is the number of ones of level `l` |
| `RankSamples.SampleStep` | src/wt_forest/tinywt.rs:59-62 | the sample pushed when `i % RANK_SAMPLE_SIZE == 0` is the ones before `i`, and only then is one pushed |
| `RankSamples.SamplesAppended` | src/wt_forest/tinywt.rs:59-62 | appending a level's samples extends `rank_samples` by one level |
| `RankSamples.OnesAppended` | src/wt_forest/tinywt.rs:70 | appending a level's ones extends `ones_level` by one level |
| `RankSamples.TablesAppended` | src/wt_forest/tinywt.rs:55-76 | one construction round extends the bits, the samples and the ones by level `l` |
| `RankSamples.BlocksPerLevel` | src/wt_forest/tinywt.rs:109 | `(n - 1) / RANK_SAMPLE_SIZE + 1` is the number of samples per level of a non-empty tree |
| `TinyWaveletTree.New` | src/wt_forest/mod.rs:32-76 | empty input gives the empty tree, more than `SIZE` symbols an error; otherwise the tree encodes the input, the buffer ends in the last level's order and is a permutation of the input, and nothing outside the segment changes |
| `TinyWaveletTree.Encodes` | src/wt_forest/mod.rs:70-75 | what `new` stores for `s`: `n = |s| <= SIZE`, `n_levels = msb(max) + 1`, and `data` the level-major layout of the level orders of `s` |
| `TinyWaveletTree.BuildLevels` | src/wt_forest/mod.rs:53-68 | the loop builds the bit array of all levels and leaves the segment in the last order, a permutation of the input |
| `TinyWaveletTree.EmitLevel` | src/wt_forest/mod.rs:55-65 | one round appends the level's bits padded to `SIZE` and stably partitions the segment by the level's bit |
| `TinyWaveletTree.LevelOf` | src/wt_forest/mod.rs:57-59 | `this_level` is bit `k` of every symbol, in buffer order |
| `TinyWaveletTree.Accessors` | src/wt_forest/mod.rs:78-91 | `len` is `n`, `is_empty` holds exactly for the empty input, `n_levels` is `msb(max) + 1`, and the bit array has `n_levels * SIZE` bits |
| `TinyWaveletTree.LevelBit` | src/wt_forest/mod.rs:121 | the bit read at `SIZE * l + cur_i` is bit `k` of the symbol under the cursor |
| `TinyWaveletTree.LevelRankAt` | src/wt_forest/mod.rs:127-131 | `rank1(l * SIZE + j) - rank1(l * SIZE)` is the rank of `j` in level `l` |
| `TinyWaveletTree.EncodesLayout` | src/wt_forest/mod.rs:53-68 | a built tree's bit array is the layout of the input's level orders |
| `TinyWaveletTree.LevelWindow` | src/wt_forest/mod.rs:127-131 | the ones of positions `[from, to)` of a level are the difference of its level-local ranks |
| `TinyWaveletTree.LevelOnesRank` | src/wt_forest/mod.rs:127-128 | the ones of level `l` computed from `rank1` and counted over its first `n` positions are both the level's rank at `n` |
| `TinyWaveletTree.LevelOnes` | src/wt_forest/mod.rs:127-128 | `rank1((l + 1) * SIZE) - rank1(l * SIZE)` is the ones among level `l`'s first `n` positions, the size of its one-group |
| `TinyWaveletTree.LevelRankBounds` | src/wt_forest/mod.rs:127-131 | the subtractions in the descent do not go below zero |
| `TinyWaveletTree.LevelStep` | src/wt_forest/mod.rs:121-139 | one round reads bit `k` of the symbol, and the new cursor is below `n` and points at the same symbol in the next level |
| `TinyWaveletTree.Descend` | src/wt_forest/mod.rs:120-140 | one round keeps the loop's invariant: cursor on the symbol, `result` its high bits, `n_ones_up_to_level` the rank at the next level's start |
| `TinyWaveletTree.GetUnchecked` | src/wt_forest/mod.rs:110-143 | for every `i < n`, the descent returns the `i`-th symbol of the input |
| `TinyWaveletTree.GetAdmits` | src/wt_forest/mod.rs:103 | the guard of `get` as written: `i` passes unless `i > SIZE` or `i > n` |
| `TinyWaveletTree.GetAdmitsPastEnd` | src/wt_forest/mod.rs:102-108 | the guard as written admits exactly `i <= n`, one position past the last symbol |
| `TinyWaveletTree.Get` | src/wt_forest/mod.rs:102-108 | `get(i)` is `Some` exactly when `i < n`, and then it is the `i`-th symbol |
| `Forest.Chunk` | src/wt_forest/mod.rs:173-181 | every chunk is non-empty and at most `BLOCK_SIZE` long |
| `Forest.Route` | src/wt_forest/mod.rs:206-208 | position `i` is in block `i / BLOCK_SIZE`, which exists, at offset `i % BLOCK_SIZE`, where `s[i]` is found |
| `Forest.Reordered` | src/wt_forest/mod.rs:169-187 | the buffer after the first `c` blocks are built covers `min(c * BLOCK_SIZE, n)` positions |
| `Forest.BlocksSnoc` | src/wt_forest/mod.rs:174 | pushing the tree of block `c` extends the forest of blocks `0 .. c - 1` |
| `Forest.SegmentPermutes` | src/wt_forest/mod.rs:173-181 | rearranging one chunk keeps the whole buffer a permutation |
| `Forest.NewBlock` | src/wt_forest/mod.rs:173-181 | one round builds the tree of block `c` in place; `?` never fires; one more block of the buffer is in final order |
| `Forest.FullBlocks` | src/wt_forest/mod.rs:173-175 | the loop over `chunks_exact_mut` builds one tree per full block |
| `Forest.LastBlock` | src/wt_forest/mod.rs:177-181 | a tree for the remainder is added exactly when it is non-empty, which completes the forest |
| `Forest.New` | src/wt_forest/mod.rs:169-187 | `WTForest::new` never fails, stores `n`, encodes every block, and leaves the buffer a permutation of the input |
| `Forest.Encodes` | src/wt_forest/mod.rs:183-186 | what `new` stores for `s`: `n = |s|`, one tree per block, tree `b` encoding block `b` with capacity `BLOCK_SIZE` |
| `Forest.Shape` | src/wt_forest/mod.rs:170-186 | `n / BLOCK_SIZE` trees of `BLOCK_SIZE` symbols, then one of `n % BLOCK_SIZE` symbols exactly when that is non-zero |
| `Forest.GetUnchecked` | src/wt_forest/mod.rs:206-208 | for every `i < n`, delegating to tree `i / BLOCK_SIZE` returns `s[i]` |
| `Forest.GetAdmits` | src/wt_forest/mod.rs:199 | the guard of `get` as written: `i` passes unless `i > n` |
| `Forest.GetAdmitsPastEnd` | src/wt_forest/mod.rs:198-204 | the guard admits `i == n`, and when `BLOCK_SIZE` divides `n` that routes to one tree past the last |
| `Forest.Get` | src/wt_forest/mod.rs:198-204 | `get(i)` is `Some` exactly when `i < n`, and then it is `s[i]` |
| `SampledTinyWaveletTree.New` | src/wt_forest/tinywt.rs:26-89 | as the tree of `mod.rs`, and `ones_level` and `rank_samples` are the ones and samples of the input's levels |
| `SampledTinyWaveletTree.Encodes` | src/wt_forest/tinywt.rs:81-88 | what `new` stores for `s`: the layout of the tree of `mod.rs`, `ones_level[l]` the ones of level `l`, and the level samples every 512 positions |
| `SampledTinyWaveletTree.BuildLevels` | src/wt_forest/tinywt.rs:54-79 | the loop builds the bits, the samples and the ones of all levels and leaves the segment in the last order |
| `SampledTinyWaveletTree.NextLevel` | src/wt_forest/tinywt.rs:55-78 | one round moves the tables and the buffer from level `l` to level `l + 1`, keeping the permutation |
| `SampledTinyWaveletTree.TableRound` | src/wt_forest/tinywt.rs:55-76 | emitting level `l` from the buffer in level `l`'s order extends all three tables by level `l` |
| `SampledTinyWaveletTree.EmitLevel` | src/wt_forest/tinywt.rs:56-76 | one round appends the padded bits, the level's samples and its ones, then partitions the segment |
| `SampledTinyWaveletTree.ScanLevel` | src/wt_forest/tinywt.rs:56-68 | the inner loop yields the level's bits, pushes its samples, and counts its ones |
| `SampledTinyWaveletTree.Accessors` | src/wt_forest/tinywt.rs:91-104 | `len`, `is_empty`, `n_levels` as for the tree of `mod.rs`; `ones_level` has one entry per level |
| `SampledTinyWaveletTree.GetLevelPos` | src/wt_forest/tinywt.rs:127-129 | `get_level_pos(l, index)` reads position `l * SIZE + index`, which is set exactly when `rank1` grows by one across it |
| `SampledTinyWaveletTree.LevelPosBit` | src/wt_forest/tinywt.rs:127-129 | `get_level_pos(l, cur)` is bit `k` of the symbol under the cursor |
| `SampledTinyWaveletTree.OnesRead` | src/wt_forest/tinywt.rs:162 | `ones_level[l]` is the level-local rank at the level's end |
| `SampledTinyWaveletTree.OnesLevelCounts` | src/wt_forest/tinywt.rs:57-70 | `ones_level[l]` is the number of ones among level `l`'s first `n` bits |
| `SampledTinyWaveletTree.SampleRead` | src/wt_forest/tinywt.rs:111 | the sample read for block `b` exists and counts the level's ones before `b * RANK_SAMPLE_SIZE` |
| `SampledTinyWaveletTree.WindowOnes` | src/wt_forest/tinywt.rs:114-120 | the ones between the sample's position and `index` are the difference of the level-local ranks |
| `SampledTinyWaveletTree.SampledRank` | src/wt_forest/tinywt.rs:107-124 | `blocks_per_level` is the samples per level, the sample index is in bounds, and sample plus window is the rank of `index` |
| `SampledTinyWaveletTree.RankLevelPos` | src/wt_forest/tinywt.rs:107-125 | `rank_level_pos(l, index)` is the number of ones of level `l` before `index` |
| `SampledTinyWaveletTree.CountWords` | src/wt_forest/tinywt.rs:116-120 | reading at most 64 bits at a time from `p` to `actual_pos` counts exactly the ones in that range |
| `SampledTinyWaveletTree.LevelStep` | src/wt_forest/tinywt.rs:156-166 | the cursor update with `ones_level` stays below `n` and follows the symbol into the next level |
| `SampledTinyWaveletTree.GetUnchecked` | src/wt_forest/tinywt.rs:147-170 | for every `i < n`, the descent with the sampled rank returns the `i`-th symbol of the input |
| `SampledTinyWaveletTree.GetAdmits` | src/wt_forest/tinywt.rs:140 | the guard of `get` as written: `i` passes unless `i > SIZE` or `i > n` |
| `SampledTinyWaveletTree.GetAdmitsPastEnd` | src/wt_forest/tinywt.rs:139-145 | the guard admits `i == n`; when `n` is a multiple of 512, `rank_level_pos` then reads the first sample of the next level, or one past the end of `rank_samples` in the last level |
| `SampledTinyWaveletTree.Get` | src/wt_forest/tinywt.rs:139-145 | `get(i)` is `Some` exactly when `i < n`, and then it is the `i`-th symbol |

## Left out

- Prefetch loops (src/wt_forest/mod.rs:111-114, src/wt_forest/tinywt.rs:148-150) are not modelled. They are cache hints with no effect on results.
- `space_usage_byte` is not modelled. It depends on the external bit vector's byte accounting.
- The external bit vector (`BitVector`, `RSWide`, `BitVectorMut`) is modelled by its contract only: a `seq<bool>` with `rank1` as the count of set bits in a prefix, and `get_bits(p, len)` as that range's bits. Its internals are not part of this model.
- `stable_partition_of_2` is a library routine not part of this model. `StablePartition.StablePartitionOf2` is an implementation of its contract, which buffers both groups and writes them back.
- `TinyWaveletTree.New`: requires a non-zero symbol in a non-empty segment. All-zero input goes through `msb(0)`, whose value is in the library and not part of this model.
- `SampledTinyWaveletTree.New`: requires a non-zero symbol in a non-empty segment, for the same reason.
- `Forest.New`: requires every block to hold a non-zero symbol, for the same reason.
- `Forest.New`: requires `BLOCK_SIZE > 0`, because `chunks_exact_mut(0)` panics when `BLOCK_SIZE` is 0.
- Symbols are unbounded naturals. The generic symbol type `T`, its `AsPrimitive` casts, and the final cast of the result back to `T` are not modelled. That cast is lossless because the result is a stored symbol.
- `usize` arithmetic is unbounded here. Overflow of `l * SIZE`, of the sample index or of the counters is not modelled.
- `SampledTinyWaveletTree.RankLevelPos`: requires `index < n`. The descent calls it only with such a cursor, except after the `i == n` that `get` lets through, which is shown under Findings.
- The `?` after `TinyWT::new` in `WTForest::new` is not modelled as a branch. `Forest.NewBlock` proves the call cannot fail, since every chunk is at most `BLOCK_SIZE` long.
- The commented-out `rank` of `tinywt.rs` is not modelled. It is not compiled.
- The test file, the benchmark binary and `lib.rs` are not part of this model.
- `get` returns an `Option` and evidently means `None` past the last symbol, while its guard (src/wt_forest/mod.rs:103, src/wt_forest/mod.rs:199, src/wt_forest/tinywt.rs:140) admits `i == n`. The `GetAdmits` predicates and their lemmas keep the guard as written; the `Get` methods use the intended bound, as the Findings table records.

## Findings

| source | as written | input that shows it | evidently intended | confidence | as-written member | corrected member |
|---|---|---|---|---|---|---|
| src/wt_forest/mod.rs:103 | `get` returns `None` only when `i > SIZE` or `i > n` | any tree and `i = n`; for the empty tree, `get(0)` goes on to the descent instead of returning `None` | `None` for `i >= n` | not executed | `TinyWaveletTree.GetAdmitsPastEnd` | `TinyWaveletTree.Get` |
| src/wt_forest/mod.rs:199 | `get` returns `None` only when `i > n` | `BLOCK_SIZE` dividing `n`, and `i = n`: the route is tree `n / BLOCK_SIZE`, one past the last tree | `None` for `i >= n` | not executed | `Forest.GetAdmitsPastEnd` | `Forest.Get` |
| src/wt_forest/tinywt.rs:140 | `get` returns `None` only when `i > SIZE` or `i > n` | `SIZE >= 512`, `n = 512`, `i = 512`: `rank_level_pos` reads sample `l * blocks_per_level + 1`, the first sample of level `l + 1`, or past the end of `rank_samples` in the last level | `None` for `i >= n` | not executed | `SampledTinyWaveletTree.GetAdmitsPastEnd` | `SampledTinyWaveletTree.Get` |
