# Verified model of the attention and matrix-product benchmarks

The two benchmark runners each carry real host algorithms beside the device kernels they launch.

The attention runner (`benchmarks/flash_attention/benchmark_runner.hpp`) samples sequence lengths,
sizes flat buffers, builds a shuffled page table for the key/value cache, and then recomputes the
kernel's output on the host: for every sequence and query head it gathers cached pages, appends the
new keys and values, masks the scores along a bottom-right diagonal, runs a max-subtracted softmax
in place, multiplies by the values and copies one slice of the output, carrying six flat offsets.
The model keeps that form: arrays overwritten in place, loops with carried offsets, a class whose
methods rebuild its fields. It is proved against a pure definition of grouped-query attention, for
all batch sizes, head counts, lengths, buffer contents, samples and shuffles.

The matrix-product runner (`benchmarks/gemm/benchmark_runner.hpp`) dequantizes grouped operands with
packed zero points, rotates through operand sets large enough to keep them cold, and keeps runtime
counters.

Values are exact reals, extended with infinities and NaN where the mask introduces them. `exp` is a
parameter assumed to be positive and to turn sums into products; the square root of the head size
is a positive real. Where a claim holds only under a condition, the lemma states the exact
condition in both directions. Nothing was executed: every statement is checked by the Dafny
verifier (`dafny verify dfyconfig.toml`).

How the modules build on each other:

- `Attention` defines attention over tokens and what its rows depend on; `SoftmaxRow` takes one row
  through the host passes; `HostSoftmax` does the passes in place; `HostAttention` adds the two
  products.
- `PagedCache`, `PageTable` and `KVGather` are the paged cache: reading it, building it, copying it.
- `Ragged`, `SequenceTables`, `HeadLayout` and `HeadOffsets` are lengths and flat addresses.
- `GroupedAttention` is the pure meaning of a whole launch; `HostCheck`, `LaunchSetup`, `PageReading`
  and `FmhaRunner` are the loops, the set-up, the reading back of its page table, and the runner that
  meet it.
- `BufferReads` and `MergedCaches` say what the output buffer of a launch depends on.
- `CausalWork` and `Timing` are the reported work and times of the attention runner; `Timing` also
  has the matrix-product counters.
- `OperandLayout`, `ZeroPoints`, `Dequantization` and `OperandRotation` are the matrix-product
  runner.
- `Arithmetic`, `Bags`, `ExtendedReals`, `Matrices`, `MixedRadix` and `Reals` are supporting facts.

Where the code and its own words disagree, the code is modelled:

- `parse` prints "Invalid" when the page size does not divide a fixed cached length (lines 89-92)
  but does not record an error, so such a launch still runs. `PageReading.EveryDrawReadsItsPages`
  says exactly which launches the check then still reads correctly whatever is shuffled: those whose
  cached lengths are multiples of the page size or shorter than a page.
  `PageReading.PagingIsShuffled` says it for one given draw.
- The comment at line 480 asks for page sizes that are multiples of 128, while the code rounds
  cached lengths, not page sizes, to multiples of 128. What the sampled lengths really ask for is a page
  size that divides 128 (`PageReading.SampledPageSizes`); a page size of 256 fails for some samples.
- The trimmed mean divides by the iteration count less two, which is 0/0 for two iterations
  (`Timing.TwoSamples`).

## Model

| member | source | states |
|---|---|---|
| FmhaRunner.BenchmarkRunnerFMHA.Run | benchmarks/flash_attention/benchmark_runner.hpp:680-723 | After set-up and check, whatever the buffers hold, whatever lengths were sampled and however pages were shuffled, block_ref_O is grouped-query attention over the caches in their stored order, as if there were no paging. Demands a valid shape and, in paged mode, cached lengths that are multiples of the page size or shorter than one page, which by PageReading.EveryDrawReadsItsPages are exactly the launches that every draw leaves readable; for other lengths, a draw that PageReading.PagingIsShuffled shows readable |
| FmhaRunner.BenchmarkRunnerFMHA.Verify | benchmarks/flash_attention/benchmark_runner.hpp:205-453 | From any state with tables and buffers of the right sizes, the reference output is the pure grouped-query attention function, and all six offsets finish at the ends of their buffers |
| FmhaRunner.BenchmarkRunnerFMHA.Initialize | benchmarks/flash_attention/benchmark_runner.hpp:537-643 | Fresh buffers of the sizes the planned lengths need; in variable-length mode cumulative tables whose steps are the samples rounded up to their own alignments and launch lengths that are the longest steps, otherwise the options; in paged mode one shuffled slice per sequence, and a table as long as its last prefix entry |
| FmhaRunner.BenchmarkRunnerFMHA.InitializeReadable | benchmarks/flash_attention/benchmark_runner.hpp:537-643 | With a readable draw, the launch that was set up reads every sequence through a shuffle of its own pages |
| FmhaRunner.BenchmarkRunnerFMHA.VerifyLaunch | benchmarks/flash_attention/benchmark_runner.hpp:205-453 | The check of such a launch leaves the output of the planned launch without paging |
| FmhaRunner.BenchmarkRunnerFMHA.constructor | benchmarks/flash_attention/benchmark_runner.hpp:476-480 | The alignments are the most elements of the given sizes that fit in 64 bytes; the runner starts unpaged |
| HostCheck.WalkHeads | benchmarks/flash_attention/benchmark_runner.hpp:231-453 | The batch and head loops with six carried offsets fill the output exactly and end at the buffer sizes |
| HostCheck.SequenceTurn | benchmarks/flash_attention/benchmark_runner.hpp:251-453 | One sequence: from its batch boundary to the next one, appending exactly the slices of its query heads |
| HostCheck.HeadTurn | benchmarks/flash_attention/benchmark_runner.hpp:265-452 | One head: appends that head's slice behind everything written so far and moves the offsets to the next head |
| HostCheck.ReferenceHead | benchmarks/flash_attention/benchmark_runner.hpp:274-440 | One head's gather, softmax and products give that head's slice of the pure function |
| HostCheck.SegmentLies | benchmarks/flash_attention/benchmark_runner.hpp:574-578 | Each (sequence, head) segment of a buffer holds that head's rows contiguously at its offset |
| GroupedAttention.Problem.OutputElement | benchmarks/flash_attention/benchmark_runner.hpp:441-451 | The flat output holds, at the position of (sequence, head, row, coordinate), that head's attention output with key/value head h / (num_heads_q / num_heads_kv) |
| BufferReads.HeadElements | benchmarks/flash_attention/benchmark_runner.hpp:325-328 | The queries, keys and values that a head attends with, element by element at their flat positions: query head h, key/value head KVHead(h), cached rows where the page table stores them |
| BufferReads.StoredRowInPage | benchmarks/flash_attention/benchmark_runner.hpp:284-296 | Row o of logical page i is stored as row o of the physical page that the table lists for page i, and without paging as itself |
| GroupedAttention.Shape.KVHeadShared | benchmarks/flash_attention/benchmark_runner.hpp:250 | KVHead(h) is the one key/value head that lies as far along its heads as h lies along the query heads |
| GroupedAttention.PagingPreservesOutput | benchmarks/flash_attention/benchmark_runner.hpp:274-319 | The whole output through any family of shuffled page tables that stay in their segments equals the output over contiguous caches, causal or not |
| GroupedAttention.HeadIgnoresPaging | benchmarks/flash_attention/benchmark_runner.hpp:278-306 | The same for one head: its keys and values pass through the same table, so its tokens are only rearranged |
| GroupedAttention.PagedTokensRearranged | benchmarks/flash_attention/benchmark_runner.hpp:283-296 | Key and value rows gathered separately form the same bag of (key, value) tokens as the stored ones |
| PagedCache.ShuffleInSegment | benchmarks/flash_attention/benchmark_runner.hpp:283-297 | A given shuffled table keeps every page copy inside its segment if and only if pages divide the length or the partial last page stays last |
| PagedCache.EveryShuffleInSegment | benchmarks/flash_attention/benchmark_runner.hpp:283-297 | All shuffled tables do, if and only if pages divide the length or one page holds it |
| PagedCache.GatherRearranges | benchmarks/flash_attention/benchmark_runner.hpp:279-297 | Gathering through a shuffled table loses no row and reads none twice |
| PagedCache.GatherIota | benchmarks/flash_attention/benchmark_runner.hpp:601 | The unshuffled table presents the cache as it is stored |
| PagedCache.PhysicalRowInSegment | benchmarks/flash_attention/benchmark_runner.hpp:284-296 | Every gathered row lies inside the sequence's own segment |
| PagedCache.GatherPage | benchmarks/flash_attention/benchmark_runner.hpp:283-291 | The rows that a page copy moves are the rows of that logical page, short last page included |
| KVGather.GatherPages | benchmarks/flash_attention/benchmark_runner.hpp:278-297 | The page loop, copying into two buffers at computed flat addresses, leaves both gathered caches as prefixes of the destinations |
| KVGather.CopyPage | benchmarks/flash_attention/benchmark_runner.hpp:283-296 | One page copy extends the gathered prefix by exactly that page's rows |
| KVGather.ConcatKV | benchmarks/flash_attention/benchmark_runner.hpp:274-323 | The views that the products read are the presented cache rows followed by the new rows, in all four cases of cache and paging |
| KVGather.AppendNew | benchmarks/flash_attention/benchmark_runner.hpp:308-316 | New rows land directly behind the cached rows |
| PageTable.BuildPageTable | benchmarks/flash_attention/benchmark_runner.hpp:587-608 | The prefix table steps by the fewest pages that hold each length, the table is as long as its last entry, and slot prefix[b] + blk holds page blk of the shuffle of sequence b; earlier slices are untouched by later rounds |
| PageTable.CountPages | benchmarks/flash_attention/benchmark_runner.hpp:586-594 | The prefix table starts at zero and steps, sequence by sequence, by pages that hold its length when one fewer would not; the page total is its last entry |
| PageTable.FillSlice | benchmarks/flash_attention/benchmark_runner.hpp:599-608 | One round fills the sequence's slice with its shuffle and keeps every earlier slice |
| PageTable.Shuffle | benchmarks/flash_attention/benchmark_runner.hpp:600-603 | Shuffling in place moves the element at order[i] to position i, and is a permutation of the array |
| PageTable.SlotInTable | benchmarks/flash_attention/benchmark_runner.hpp:605 | Every (sequence, logical block) has a slot inside the table |
| PageTable.SlotOwner | benchmarks/flash_attention/benchmark_runner.hpp:586-608 | Every slot belongs to exactly one (sequence, logical block): with SlotInTable, a bijection |
| PageTable.FixedLengthShortcut | benchmarks/flash_attention/benchmark_runner.hpp:280 | For fixed lengths b * (len / page_size) equals the prefix entry for every b if and only if pages divide the length or there is at most one sequence |
| Attention.CacheBoundaryInvisible | benchmarks/flash_attention/benchmark_runner.hpp:308-358 | For queries and keys of any one width and values of any other, a cache of c keys plus n new keys gives, on all tensors of those sizes, what no cache on the c + n concatenated keys gives, if and only if not causal, seq_len_qo <= seq_len_kv, or the cache is empty |
| MergedCaches.MergingInvisibleExactly | benchmarks/flash_attention/benchmark_runner.hpp:231-453 | The same over the whole output buffer of a launch, contiguous or paged: moving every cache in front of its new keys and values leaves the output unchanged for all buffer contents, if and only if every sequence is not causal, has seq_len_qo <= seq_len_kv, or has no cache |
| MergedCaches.MergingPreservesOutput | benchmarks/flash_attention/benchmark_runner.hpp:231-453 | Any two launches whose tokens are related like this leave the same output buffer under that condition |
| MergedCaches.JoinedIsMerged | benchmarks/flash_attention/benchmark_runner.hpp:308-316 | The buffers of the merged launch, laid out head after head and sequence after sequence, give each head its cached tokens followed by its new ones |
| Attention.SplitDiffers | benchmarks/flash_attention/benchmark_runner.hpp:347-401 | For any sizes with seq_len_qo > seq_len_kv and a cache, concrete tensors of exactly those sizes whose output changes when the cache boundary moves |
| Attention.CacheOrderIrrelevant | benchmarks/flash_attention/benchmark_runner.hpp:350-426 | Rearranging a head's cached tokens changes no output row, because no cached column is ever masked |
| Attention.AttendPermutes | benchmarks/flash_attention/benchmark_runner.hpp:360-426 | Softmax attention sees its tokens as a bag |
| Attention.OutputIsAverage | benchmarks/flash_attention/benchmark_runner.hpp:347-426 | Each live output coordinate lies between any bounds on that coordinate of the visible values |
| BufferReads.OutputIgnoresUnread | benchmarks/flash_attention/benchmark_runner.hpp:231-453 | An element of the output buffer is unchanged by any change to the input buffers that keeps its own query row, the keys up to its diagonal and the same coordinate of their values, for both orderings of the lengths and with or without paging; an element of a discarded row is unchanged by anything |
| BufferReads.OutputSeesNewValue | benchmarks/flash_attention/benchmark_runner.hpp:347-426 | Conversely, overwriting that value coordinate of any new key up to the diagonal, in the buffer, changes a live output element |
| BufferReads.OutputSeesCachedValue | benchmarks/flash_attention/benchmark_runner.hpp:347-426 | So does overwriting that value coordinate of any cached key, through any shuffled page tables |
| BufferReads.OutputWithin | benchmarks/flash_attention/benchmark_runner.hpp:347-426 | A live element of the output buffer is finite and lies between any bounds on the buffer elements of the values it sees |
| Attention.OutputIgnoresMasked | benchmarks/flash_attention/benchmark_runner.hpp:347-401 | Coordinate d of a row is unchanged by any change that keeps its query, its visible keys and coordinate d of their values |
| Attention.OutputSeesVisible | benchmarks/flash_attention/benchmark_runner.hpp:347-401 | Conversely, changing that value coordinate of any visible token, cached or new, changes the output: the receptive field is exact |
| SoftmaxRow.OutputIsSoftmaxAverage | benchmarks/flash_attention/benchmark_runner.hpp:347-426 | A live output is the sum of the visible values under positive weights that sum to one and are to each other as exp of the scores over the scale |
| SoftmaxRow.SoftmaxWeightsUnique | benchmarks/flash_attention/benchmark_runner.hpp:372-401 | Only one list of weights has that sum and those ratios, so the two lemmas determine the output |
| HostAttention.ScoreMovesWithKey | benchmarks/flash_attention/benchmark_runner.hpp:330-338 | In the first product a key coordinate moves the score of its own column by its product with the query coordinate, and no other column |
| HostAttention.ScoreMovesWithQuery | benchmarks/flash_attention/benchmark_runner.hpp:330-338 | A query coordinate moves its own row of scores likewise, and no other row |
| HostAttention.ZeroScore | benchmarks/flash_attention/benchmark_runner.hpp:330-338 | Zero keys and zero queries score zero: with the two laws above the score is the inner product |
| Attention.WeightMoves | benchmarks/flash_attention/benchmark_runner.hpp:372-380 | A key coordinate multiplies the weight by exp of its product with the query coordinate over the scale, and a key of zeros weighs one |
| Attention.VisibleSteps | benchmarks/flash_attention/benchmark_runner.hpp:347-358 | Bottom-right alignment: the last row sees every key, each live row one key more than the row before, the first live row after discarded ones a single new key |
| SoftmaxRow.LiveRowRatios | benchmarks/flash_attention/benchmark_runner.hpp:372-401 | The host probabilities of two visible columns are to each other as exp of their scaled scores |
| SoftmaxRow.MixMoves | benchmarks/flash_attention/benchmark_runner.hpp:418-426 | In the second product a value coordinate moves its output column by its probability |
| SoftmaxRow.MixOfZeros | benchmarks/flash_attention/benchmark_runner.hpp:418-426 | Values of zero give zero |
| SoftmaxRow.MaskedIsDiagonal | benchmarks/flash_attention/benchmark_runner.hpp:347-355 | A column is hidden exactly when it is a new key and lies past the row on the bottom-right diagonal |
| SoftmaxRow.RowRefinesAttention | benchmarks/flash_attention/benchmark_runner.hpp:347-426 | Mask, max, shifted exp, sum, divide and product with V, in arithmetic with infinities and NaN, give the finite attention output; the NaN of a fully masked row is zeroed before it escapes |
| SoftmaxRow.LiveRowIsDistribution | benchmarks/flash_attention/benchmark_runner.hpp:350-401 | A live row of probabilities is in [0, 1], sums to 1, is zero exactly at masked columns, and never divides by zero or sees NaN |
| SoftmaxRow.LiveRowWeights | benchmarks/flash_attention/benchmark_runner.hpp:360-401 | The three passes leave exp(s/c) over the sum of exp(s/c) of the visible columns: the max subtraction cancels |
| SoftmaxRow.RowMaxOfPrefixRow | benchmarks/flash_attention/benchmark_runner.hpp:361-371 | The running maximum of a live row is finite, attained, and bounds every visible score |
| SoftmaxRow.MaskedBeyondVisible | benchmarks/flash_attention/benchmark_runner.hpp:347-358 | The loop's test hides exactly the columns past the bottom-right diagonal, and a row has no visible new key exactly when it is below discard_seq_coord |
| SoftmaxRow.ShiftScalesWeight | benchmarks/flash_attention/benchmark_runner.hpp:372-380 | Subtracting the maximum scales every weight of a row by one common factor |
| HostSoftmax.SoftmaxInPlace | benchmarks/flash_attention/benchmark_runner.hpp:347-401 | All passes, in place on one row-major array, leave row by row the probabilities of the original scores |
| HostSoftmax.ApplyCausalMask | benchmarks/flash_attention/benchmark_runner.hpp:350-358 | In place, element by element: -inf at the new keys past the bottom-right diagonal, and the score as it was everywhere else |
| HostSoftmax.RowMaxima | benchmarks/flash_attention/benchmark_runner.hpp:361-370 | max_vec holds each row's maximum under the loop's own comparison |
| HostSoftmax.ExpInPlace | benchmarks/flash_attention/benchmark_runner.hpp:373-380 | In place, every element becomes exp of its shifted, scaled score |
| HostSoftmax.NormaliseInPlace | benchmarks/flash_attention/benchmark_runner.hpp:383-401 | In place, rows are divided by their own sum as it stood before the row was scaled, or zeroed when discarded |
| HostAttention.AttendHead | benchmarks/flash_attention/benchmark_runner.hpp:325-440 | From flat query, key and value views to the flat output slice of the pure attention of that head |
| HostAttention.MixMatrixIsOutput | benchmarks/flash_attention/benchmark_runner.hpp:418-426 | The second product over the in-place probabilities is the attention output of every row and column |
| HeadOffsets.Advance | benchmarks/flash_attention/benchmark_runner.hpp:443-451 | The conditional updates take the offsets from head h to where the layout puts head h + 1, or to the next sequence, although K/V offsets move only when the counter hits a multiple of the group size |
| HeadOffsets.GroupCounter | benchmarks/flash_attention/benchmark_runner.hpp:250-264 | The counter hits a multiple of the group size exactly when the next query head starts a new key/value head, and on the last head |
| HeadOffsets.KVOffsetMoves | benchmarks/flash_attention/benchmark_runner.hpp:444-449 | The counter-driven K/V offset equals the closed form head_size * (num_heads_kv * earlier lengths + len * (h / group)) that the device kernel uses |
| HeadLayout.GroupHeadInRange | benchmarks/flash_attention/benchmark_runner.hpp:250 | Every query head finds a positive group size and a key/value head of its own sequence if and only if num_heads_kv divides num_heads_q, fewer query heads than key/value heads included |
| HeadLayout.HeadFits | applications/flash_attention_v2/kernel/xe_fmha_fwd_kernel.hpp:233-246 | Each head's segment lies between its sequence's cumulative boundaries and inside the buffer |
| HeadLayout.PositionSteps | applications/flash_attention_v2/kernel/xe_fmha_fwd_kernel.hpp:233-246 | The flat layout starts at zero and steps by one per coordinate, by the width per row, by a segment per head, and runs on from the last head of a sequence to the next sequence |
| HeadLayout.PositionOwner | benchmarks/flash_attention/benchmark_runner.hpp:579-580 | Every element of the output buffer belongs to some (sequence, head, row, coordinate): the slices cover it |
| HeadLayout.PositionUnique | benchmarks/flash_attention/benchmark_runner.hpp:441-451 | No element belongs to two of them: the slices are disjoint |
| HeadLayout.PositionInBuffer | benchmarks/flash_attention/benchmark_runner.hpp:579-580 | Every (sequence, head, row, coordinate) has its element inside the buffer |
| HeadLayout.WalkBlock | benchmarks/flash_attention/benchmark_runner.hpp:251-453 | What the two loops append for a head sits in the finished buffer at that head's closed-form offset |
| SequenceTables.InitializeVarlen | benchmarks/flash_attention/benchmark_runner.hpp:489-516 | For every sequence i: the query step lies in [samples[i].q, samples[i].q + alignment) and is a multiple of the query alignment, the key step likewise of samples[i].kv, the cache step likewise of samples[i].cache with 128, or zero without a cache; the tables start at zero, end at their totals, and the maxima are the longest steps |
| LaunchSetup.PlannedLengths | benchmarks/flash_attention/benchmark_runner.hpp:500-503 | The planned lengths of every sequence in the same terms, or the options with fixed lengths |
| HostCheck.LaunchTables.LengthsOfSequence | benchmarks/flash_attention/benchmark_runner.hpp:252-261 | Each sequence takes its query, key and cache length from its own three tables, or from the fixed lengths |
| SequenceTables.TableShape | benchmarks/flash_attention/benchmark_runner.hpp:489-522 | Starts at 0, ends at the total used for allocation, grows at every step by an aligned length no larger than the reported maximum, and grows exactly where the sample was positive |
| SequenceTables.CacheTableAllOrNothing | benchmarks/flash_attention/benchmark_runner.hpp:503 | For positive samples the cache table is strictly increasing when caching is on and all zero when it is off |
| SequenceTables.RoundUpSpec | include/cutlass/fast_math.h:211-216 | round_up gives the one multiple in [a, a + align), and only it |
| LaunchSetup.SetLengths | benchmarks/flash_attention/benchmark_runner.hpp:543-557 | The table steps follow the samples, the launch lengths are the longest steps or the options, the tables give back the planned lengths, and the sizing shape (one sequence of the total length in variable-length mode) matches them |
| LaunchSetup.BufferSize | benchmarks/flash_attention/benchmark_runner.hpp:574-580 | batch * heads * length * width, as the source multiplies it, is the end of the last head's segment in both modes |
| LaunchSetup.SetPages | benchmarks/flash_attention/benchmark_runner.hpp:585-613 | The page table and its prefix table are filled from the shuffles and leave the lengths alone |
| PageReading.EveryDrawReadsItsPages | benchmarks/flash_attention/benchmark_runner.hpp:280-297 | Whatever shuffles are drawn, every sequence is read as a shuffle of its own pages inside its own segments, if and only if every cached length is a multiple of the page size or shorter than a page; the same condition for fixed and variable lengths |
| PageReading.PagingIsShuffled | benchmarks/flash_attention/benchmark_runner.hpp:280-297 | For one given draw the same holds if and only if the start index finds the slices (variable lengths, a fitting page size, or a single sequence) and no partial last page is moved |
| PageReading.SampledPageSizes | benchmarks/flash_attention/benchmark_runner.hpp:480-503 | With sampled lengths and a cache, a page size suits every sample if and only if it divides 128 |
| PageReading.FillTables | benchmarks/flash_attention/benchmark_runner.hpp:585-613 | Every draw of shuffles is the content of some page table and prefix table of the launch |
| LaunchSetup.PositiveSamplesPlanValid | benchmarks/flash_attention/benchmark_runner.hpp:481-503 | Positive samples always give every sequence a key to attend to |
| CausalWork.WorkFormulaExact | benchmarks/flash_attention/benchmark_runner.hpp:750-754 | The (row, new key) pairs left unmasked by the nested loop number exactly effective_seq_len_qo * effective_seq_len_kv, causal or not, for every pair of lengths |
| CausalWork.FlopsCountPairs | benchmarks/flash_attention/benchmark_runner.hpp:750-757 | With fixed lengths, the reported operation count is two per unmasked (row, new key) pair and coordinate, for every sequence and query head |
| CausalWork.FormulaCountsAllWork | benchmarks/flash_attention/benchmark_runner.hpp:750-757 | With fixed lengths, the effective lengths count every (row, key) pair that the output depends on, cached keys included, if and only if there is no cache or no row sees any key |
| Timing.TrimmedMeanBetween | benchmarks/gemm/benchmark_runner.hpp:776-792 | The trimmed mean lies between best and worst if and only if there is one sample or at least three |
| Timing.MeansGiveSum | benchmarks/gemm/benchmark_runner.hpp:776-792 | The iteration count less two times the trimmed mean, plus best and worst, is the sum of all samples; the count times the plain mean is that sum |
| Timing.TwoSamples | benchmarks/gemm/benchmark_runner.hpp:790-792 | With exactly two samples the trimmed mean is NaN |
| Timing.MeanBetween | benchmarks/flash_attention/benchmark_runner.hpp:819-833 | The plain mean lies between the extremes for any number of samples but none |
| Timing.ExtremesAreSamples | benchmarks/gemm/benchmark_runner.hpp:784-786 | Best and worst are samples, and bound them all |
| Timing.BestRateIsHighest | benchmarks/gemm/benchmark_runner.hpp:793-796 | A rate from the best runtime is finite and at least the rate from the average |
| Timing.GemmCounters.Update | benchmarks/gemm/benchmark_runner.hpp:782-788 | Keeps total, best and worst equal to the sum and extremes of every sample so far |
| Timing.GemmCounters.Finalize | benchmarks/gemm/benchmark_runner.hpp:790-797 | After any run of one runtime or at least three: average, best and worst make up the sum of the samples as in MeansGiveSum, the average is between best and worst, avg_tflops and best_tflop times their runtimes give gflop, avg_throughput and best_bandwidth times theirs give the bytes, and the best rates are at least the average ones |
| Timing.FmhaCounters.Update | benchmarks/flash_attention/benchmark_runner.hpp:824-829 | Keeps total and best equal to the sum and minimum of every sample so far |
| Timing.FmhaCounters.Finalize | benchmarks/flash_attention/benchmark_runner.hpp:831-838 | The same for the untrimmed average after any run of at least one runtime |
| OperandRotation.TimedLoop | benchmarks/gemm/benchmark_runner.hpp:742-771 | Iteration i uses operand set (i + 1) mod count |
| OperandRotation.WarmUpThenLoop | benchmarks/gemm/benchmark_runner.hpp:655-689 | The warm-up on set 0 and the timed loop form one rotation |
| OperandRotation.WindowUsesEachOnce | benchmarks/gemm/benchmark_runner.hpp:743-771 | Every window of count steps of a run uses every operand set exactly once |
| OperandRotation.ReusedSetIsCold | benchmarks/gemm/benchmark_runner.hpp:572-574 | Between two uses of a set every other set is used, and those sets together hold at least the last-level cache; one set fewer would not |
| OperandLayout.Groups.ZeroOffsetSteps | benchmarks/gemm/benchmark_runner.hpp:590 | Packed zero points start at zero and step by one per group inside a pack, by the pack size per row, by a pack of all rows per pack, and by dq_mn_size * scale_k per batch; unpacked they lie like the scales |
| OperandLayout.Groups.ScaleOffsetSteps | tools/util/include/cutlass/util/packed_stride.hpp:94-110 | Scales step by one per row, by dq_mn_size per group, and by dq_mn_size * scale_k per batch |
| ZeroPoints.ZeroOffsetsFit | benchmarks/gemm/benchmark_runner.hpp:588-600 | Packed zero-point offsets all stay inside scale_k * L * dq_mn_size elements if and only if the pack size divides scale_k or there is a single row |
| ZeroPoints.ZeroInjective | benchmarks/gemm/benchmark_runner.hpp:590 | Different (row, group, batch) triples read different zero points |
| ZeroPoints.ZeroSurjective | benchmarks/gemm/benchmark_runner.hpp:600 | Every allocated zero point is read by some triple |
| ZeroPoints.ZeroInRange | benchmarks/gemm/benchmark_runner.hpp:436-443 | Every zero-point read is inside the buffer, packed or not |
| OperandLayout.Operand.OffsetSteps | tools/util/include/cutlass/util/packed_stride.hpp:76-110 | An operand steps by one along its fastest index, by a run of those along the other, and by mn * k per batch |
| OperandLayout.Operand.OffsetHolds | tools/util/include/cutlass/util/packed_stride.hpp:76-110 | Packed strides put each coordinate triple at its own position inside the operand, for either packed order |
| OperandLayout.Operand.CoordinatesAt | tools/util/include/cutlass/util/packed_stride.hpp:76-110 | Every position holds the element of some triple |
| OperandLayout.Operand.VisitedOnce | benchmarks/gemm/benchmark_runner.hpp:425-427 | Each step of the triple loop writes one position that no other step writes |
| Dequantization.GroupIndicesFit | benchmarks/gemm/benchmark_runner.hpp:580 | Every k / group_size is a valid group index if and only if group_size divides K |
| Dequantization.GroupDataInRange | benchmarks/gemm/benchmark_runner.hpp:343-351 | Every scale and zero-point read of the loops is inside its buffer |
| Dequantization.GroupHolds | benchmarks/gemm/benchmark_runner.hpp:343 | The group that the loop reads for a column is the one whose run of group_size columns holds it, and no other |
| Dequantization.ForEachElement | benchmarks/gemm/benchmark_runner.hpp:425-448 | After the strided in-place writes, for every row, column and batch in shape, the element there is the operation on its source and on the scale and zero point of that row, that batch and the group whose run of group_size columns holds the column, for either packed order |
| Dequantization.DequantizeOperand | benchmarks/gemm/benchmark_runner.hpp:425-448 | By coordinates, every element of the buffer is (source - zero) * scale with the zero point and scale of its row, group and batch |
| Dequantization.DequantizeSteps | benchmarks/gemm/benchmark_runner.hpp:358 | The zero point dequantizes to zero, and one more quantum adds exactly one scale |
| Dequantization.QuantizeOperand | benchmarks/gemm/benchmark_runner.hpp:323-362 | By coordinates, every element less its zero point is the number of whole scales from zero towards the source, with the zero point and scale of its row, group and batch |
| Dequantization.QuantizeCounts | benchmarks/gemm/benchmark_runner.hpp:356 | Quantizing gives that number plus the zero point, and no other number qualifies, for positive and negative inputs |
| Dequantization.TensorRoundTrip | benchmarks/gemm/benchmark_runner.hpp:355-359 | Over the whole tensor the integer branch undoes the floating branch exactly |
| Dequantization.TensorNearRoundTrip | benchmarks/gemm/benchmark_runner.hpp:355-359 | The reverse composition brings every real element back within one step of its own scale |

## Left out

- Device kernels, tile schedulers, CuTe layout algebra, launch and workspace plumbing, the comparison with the kernel's output and the `passed` flag: not host algorithms of these files.
- The two GEMM calls of the check: each is its exact textbook sum, with key j contiguous (column-major K) and row-major V.
- Floating-point rounding, casts between element types and 32-bit integer overflow: exact reals and unbounded integers.
- Signed zeros: a zero divisor counts as +0, which matters only in results that are later discarded.
- Random sampling, its rejection loop and the internals of `std::shuffle`: samples, shuffles and buffer contents are arbitrary parameters, so every outcome is covered.
- GroupedAttention.PagingPreservesOutput: assumes tables that stay in their segments; outside that condition, given exactly by PagedCache.ShuffleInSegment, a copy reads rows of another head or sequence, or runs past the buffer, and no equality is claimed.
- FmhaRunner.BenchmarkRunnerFMHA.Run: assumes that num_heads_kv divides num_heads_q (HeadLayout.GroupHeadInRange: with any other count the source divides by a zero group size or reads past a sequence) and that a sequence with queries has at least one key, because the row maximum reads column 0.
- FmhaRunner.BenchmarkRunnerFMHA.Verify: the six offset variables of the loops travel in one record, and the per-head scratch allocations are fresh arrays.
- LaunchSetup.SetLengths: the device copies of the cumulative tables are not separate objects.
- SequenceTables.InitializeVarlen: each table, its total and its maximum are kept together in one record that is rebuilt at every step, rather than in three growing vectors.
- CausalWork.WorkFormulaExact: counts new keys only, as the source does; CausalWork.FormulaCountsAllWork says when that is all the work.
- CausalWork.FlopsCountPairs: speaks of fixed lengths; in variable-length mode the source still reports the figure of the option lengths, which is not the work of the sampled ones.
- Timing.GemmCounters.Finalize: the byte count behind the bandwidth figures is a parameter.
- OperandRotation.ReusedSetIsCold: the set count uses an exact ceiling where the source divides two floats.
- Dequantization.ForEachElement: one loop serves both operands, which differ only in the order of their strides; the sub-byte source path of `dequantize_A`, whose layout does not match its loop bounds, is not modelled.
- Dequantization.TensorRoundTrip: scales are positive, as the runner initialises them (1 to 4).
- OperandLayout.Operand.OffsetHolds: the batch stride for a single batch is mn * k instead of 0, which changes no address.
- ZeroPoints.ZeroOffsetsFit: the shape's `max(1, ...)` for fewer groups than a pack holds is covered only by the range condition.
- Benchmark registry, command-line parsing, `main.cpp`, configuration headers, operand-set allocation and its exceptions: only easy properties.
