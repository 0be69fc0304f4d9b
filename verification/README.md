# Verified models of the reference and tooling scripts

The engine's numerical reference code and its release tooling rest on arguments that no single function body
shows: an n-gram embedding evaluated through a truncated cache must equal the one-shot form, a layer stack
must not look ahead, a checkpoint rewrite must not lose a byte, a table kept in a comment must not lose an
entry. This project models those parts in Dafny and proves the arguments.

* **N-gram embedding** (`NgramHash`, `NgramSensitivity`, `NgramEmbedding`). A polynomial rolling hash over
  the last tokens, cut at EOS, reduced modulo one odd table size per (size, split). Main results: the loops
  compute the base-V polynomial modulo the table size, and the 64-bit form never wraps at the released
  dimensions; a token changed into another, neither an EOS, changes the id exactly when no EOS lies between;
  every entry of an embedding is the average of the word entry and one looked-up, projected entry per table;
  any way of feeding a sequence through the rolling cache, with beam reorders in between, gives the one-shot
  rows of each row's history.
* **LongCat backbone** (`Rope`, `RopeAngles`, `Backbone`, `AttentionLaws`, `LayerLaws`, `LayerRun`). Latent
  attention with interleaved rope, mixture of experts with the shortcut add, the layer loop. Main results:
  running a prefix gives the prefix of the run, through every layer and the head; scores depend on positions
  only through their difference; position 0 reads only itself; which angle every pair is turned by; which
  weights each part of a layer uses on which rows, from single entries of a query up to the logits.
* **Checkpoint files** (`Safetensors`, `JsonLaws`, `Bf16`, `LoraAdapter`, `ExpertSplit`, `ShardPacking`,
  `CheckpointRun`). Main results: what is written reads back, and exactly when it does not; the bit trick is
  round to nearest, ties to even; splitting and packing conserve order, names and bytes, and exactly when
  they lose bytes; the index leads from every expert's name to its share of the fused bytes.
* **Reach table** (`ChkiTable`, `ChkiLedger`, `ChkiLimits`, `ChkiRows`, `ChkiCells`). A table printed into a
  comment and parsed back at every merge. Main results: exactly when a printed table reads back and a merge
  is recorded; over any sequence of merges the table is the untouched rows followed by the latest row of
  every recorded PR, each of which splits the hardware it reaches into owed and checked, and the owed row is
  the union of what they owe.
* **Include walk** (`IncludeWalk`). A worklist closure: it ends, is sound, and is complete when an include
  resolves alike from every directory a file is reached from; a tree where it is not complete.
* **Stream decoders** (`SseLoop`, `SseCounts`, `ReplayDecode`, `ReplayMessages`, `ReplayFrames`). Main
  results: the outcome of the line-buffered loop is independent of network chunking exactly when every
  `[DONE]` settles it, and its counts are those of the lines read; tool-call reassembly depends only on
  per-index concatenation; a message sent as raw text in either wire format decodes to itself.
* **Measurement scripts** (`ShadowTopk`, `ShadowCounts`, `TreeShape`, `MeasuredCoverage`, `CutSearch`,
  `PowerWindow`, `PowerLaws`, `LineOwner`, `LineKinds`, `BoundTables`). Counters, backward recurrences, a
  search, a trapezoid integral and a two-pass ownership map, each against an independent definition.

The other modules (`Vectors`, `Sequences`, `ModArith`, `RealArith`, `Lines`, `Text`) hold shared notions and
their laws. Numbers that the source keeps as floats are reals; `exp`, `cos`, `sin`, `sqrt` and `pow` are
functions with stated laws: a result that needs more than signs asks for the law it uses, that exponents
add, that a root squared is the number, or the identities of angle differences. JSON is an encoder and
decoder that invert each other and tolerate trailing spaces. Where the source updates an object in place
(`NgramCache`, `PowerWindow`) or an array (the ownership map) the model does so too; its other loops are
methods with loops, proved against the functions that the lemmas are about. That the laws asked of JSON, of
the signs and angles of the real functions, of sorting indices and of sorting names can be met is proved too
(`JsonLaws.LawfulJsonExists`, `Rope.LawfulMathExists`, `Backbone.SortingExists`,
`ChkiLimits.LawfulSorterExists`); those of powers and roots are the usual ones and stay hypotheses of the
results that name them.

Where code and documentation differ, the model follows the code:

* `bf16_round` is described as the kernels' rounding. It is, for finite values and infinities; a NaN with a
  small payload becomes an infinity and one with the largest payloads becomes a zero (`Bf16.NanSurvival`).
* The cache is described as keeping only N-1 tokens. For N = 1 the slice `[-0:]` keeps everything
  (`NgramEmbedding.RememberedIsWindow`). This concerns the cache class alone: the embedding layer divides by
  the number of tables, split count times N-1, when it is built, and raises for N = 1.
* The rewriter is described as bit-exact. It is for files whose data agrees with their shapes
  (`ExpertSplit.WellFormedConserved`). When the expert count does not divide a fused tensor's bytes, the
  remainder is dropped (`ExpertSplit.SplitConserves`, `RaggedLosesByte`), and `total_size` is the bytes
  written, not those read.
* The dry run's predicted tensor count uses the first fused tensor's expert count for all of them
  (`ShardPacking.DryRun`, `UnevenMispredicted`).
* `[DONE]` leaves only the inner loop of the load generator: bytes that arrive in a later chunk are still
  read, bytes in the same chunk only if another chunk follows (`SseLoop.ChunkingIrrelevantIff`,
  `ChunkingMatters`).
* The include walk records a file once, under the directory it was first reached from, so a header can be
  missed (`IncludeWalk.DirectoryMatters`, `DivergenceLosesFile`).
* The table is described as the record of every merge. A bar or a line break in a hardware name or in a
  shown directory loses the merge's row at the next read (`ChkiLimits.BarredMergeLost`), with a bar the PR's
  earlier row too (`LostMerge`), and an empty name or a backtick is misread; `ChkiLimits.RecordedIff` says
  exactly which merges are recorded.

## Model

| member | source | states |
|---|---|---|
| NgramHash.EosPositions | bench/ngram_ref/ngram_parity.py:79-79 | exactly the EOS positions, in increasing order |
| NgramHash.ShiftRightIgnoreEos | bench/ngram_ref/ngram_parity.py:72-88 | entry p is the token n back when it exists and no EOS lies between, else 0: the segment-copy loop against a pointwise definition |
| NgramHash.PowersReduced | bench/ngram_ref/ngram_parity.py:101-106 | the running product holds V^d mod T for every d below the n-gram size |
| NgramHash.PrecomputeVocabMods | bench/ngram_ref/ngram_parity.py:91-107 | every (size, split) key holds the powers of V reduced by its own table size |
| NgramHash.AccumulatedIsPolynomial | bench/ngram_ref/ngram_parity.py:110-119 | summing tokens times reduced powers and reducing once gives the base-V polynomial of the last i tokens mod T |
| NgramHash.NgramIdsForTable | bench/ngram_ref/ngram_parity.py:110-119 | every id is the polynomial of its last i tokens (0 beyond an EOS or the start) mod the table size |
| NgramHash.AccumulatedBound | bench/ngram_ref/ngram_parity.py:110-119 | for tokens below V, every partial sum is below i·V·T and every product below V·T |
| NgramHash.GetNgramIds | bench/ngram_ref/modeling_longcat_ngram.py:150-161 | the tensor loop computes the same sums with two's complement 64-bit wrap at every step |
| NgramHash.NoWrap | bench/ngram_ref/modeling_longcat_ngram.py:150-161 | when n·V·T is at most 2^63 the 64-bit sums equal the unbounded ones, hence the polynomial mod T |
| NgramHash.RealDimsNeverWrap | bench/ngram_ref/ngram_parity.py:223-237 | at V = 131072, ratio 78, sizes 2 to 4 and 4 splits, the 64-bit computation gives the exact id for every context |
| NgramHash.RealDimsUnreducedOverflows | bench/ngram_ref/ngram_parity.py:91-107 | a four-token context whose unreduced polynomial exceeds 2^64, so the reduction is needed |
| NgramSensitivity.TableSizesDistinct | bench/ngram_ref/ngram_parity.py:66-69 | two (size, split) pairs have the same table size iff they are the same pair |
| NgramSensitivity.PolynomialDifference | bench/ngram_ref/ngram_parity.py:110-119 | changing one token d back, neither version an EOS unless it is the last token itself, moves the polynomial by the change times V^d if no EOS lies between, else not at all |
| NgramSensitivity.CoprimeToPowers | bench/ngram_ref/ngram_parity.py:66-69 | for V a power of two and ratio at least 1, every table size is coprime to the powers of V |
| NgramSensitivity.OneTokenChangesId | bench/ngram_ref/ngram_parity.py:110-119 | the same change of a token in the window changes the id iff no EOS lies between it and the position |
| NgramSensitivity.EosCutsWindow | bench/ngram_ref/ngram_parity.py:72-119 | an EOS put d back leaves the polynomial of the d tokens after it |
| NgramSensitivity.NewEosChangesId | bench/ngram_ref/ngram_parity.py:110-119 | changing an earlier token of the window into an EOS changes the id iff the part of the polynomial that it cuts off is no multiple of the table size |
| NgramSensitivity.Rolling | bench/ngram_ref/ngram_parity.py:72-119 | the polynomial of a position is its token plus V times the polynomial of the position before, of one token less, or just its token at the start and after an EOS |
| NgramEmbedding.FromEndLength | bench/ngram_ref/ngram_parity.py:134-134 | a slice from k before the end has k elements unless k is 0, where it is everything |
| NgramEmbedding.AddTable | bench/ngram_ref/ngram_parity.py:143-146 | one (size, split) pass adds exactly that table's projected row to every position |
| NgramEmbedding.TableSums | bench/ngram_ref/ngram_parity.py:138-146 | after all passes every position holds the sum over all tables for its full context |
| NgramEmbedding.NgramEmbed | bench/ngram_ref/ngram_parity.py:122-148 | the rows of the chunk are the fused embedding of its positions in context plus chunk, and each, times the number of parts, is the word row plus, for every table, its projection of the row that the polynomial of the right size, reduced by that table's size, looks up |
| NgramEmbedding.EntryFormula | bench/ngram_ref/ngram_parity.py:138-148 | entry r of an embedding, times 1 + k(N-1), is the word entry plus a flat sum over tables e of row r of projection e times the row of table e at the polynomial of size 2 + e/k modulo ratio·V + 2e + 1 |
| NgramEmbedding.OneShotFormula | bench/ngram_ref/ngram_parity.py:122-148 | so is every entry of the one-shot embedding |
| Vectors.DotUnit | bench/ngram_ref/ngram_parity.py:146-146 | a product with a unit vector reads one entry off |
| Vectors.DotLinear | bench/ngram_ref/ngram_parity.py:146-146 | and the product is linear, which with the row before leaves one function only |
| NgramEmbedding.PolynomialInSlice | bench/ngram_ref/ngram_parity.py:72-119 | the polynomial of a position needs no token more than size - 1 before it |
| NgramEmbedding.OneShotPrefix | bench/ngram_ref/ngram_parity.py:122-148 | later tokens never change earlier rows |
| NgramEmbedding.ChunkRefinesOneShot | bench/ngram_ref/ngram_parity.py:122-148 | a chunk embedded with only the remembered context continues the one-shot rows of the whole history |
| NgramEmbedding.WrappedIdsRefine | bench/ngram_ref/modeling_longcat_ngram.py:150-161 | the 64-bit sums of a chunk in its remembered context are those of the whole history, even where they wrap |
| NgramEmbedding.NgramCache.constructor | bench/ngram_ref/modeling_longcat_ngram.py:37-41 | a new cache has no context and remembers N-1 tokens |
| NgramEmbedding.NgramCache.UpdateNgramContext | bench/ngram_ref/modeling_longcat_ngram.py:43-57 | every row is its old context and the new tokens, cut to the last N-1 |
| NgramEmbedding.NgramCache.ReorderCache | bench/ngram_ref/modeling_longcat_ngram.py:59-68 | row r becomes the old row beam[r]; nothing when there is no context |
| NgramEmbedding.Forward | bench/ngram_ref/modeling_longcat_ngram.py:245-273 | embeds token ids with the context from before the call, then an n-gram cache, given or new, holds the new tokens; another kind of past and given embeddings leave it alone; raises iff both or neither of ids and embeddings come, or embeddings meet an n-gram cache that would be updated |
| NgramEmbedding.AppendRemembered | bench/ngram_ref/modeling_longcat_ngram.py:43-57 | truncating what was already truncated keeps the window of the whole history |
| NgramEmbedding.StepFaithful | bench/ngram_ref/modeling_longcat_ngram.py:43-68 | every feed or reorder keeps each row's context equal to the window of its own history, and its outputs equal to the one-shot rows of that history |
| NgramEmbedding.Final | bench/ngram_ref/modeling_longcat_ngram.py:43-68 | so does every run of feeds and reorders from an empty cache |
| NgramEmbedding.RememberedIsWindow | bench/ngram_ref/modeling_longcat_ngram.py:43-57 | the context is the last min(N-1, length) tokens iff N is at least 2 or nothing was fed |
| NgramEmbedding.AnyCutEqualsOneShot | bench/ngram_ref/ngram_parity.py:192-220 | for every token sequence and every cut into non-empty chunks, the outputs joined are the one-shot embedding |
| Rope.ProductDependsOnDistance | bench/ngram_ref/longcat_forward_ref.py:89-106 | the product of a rotated query and key is a sum over pairs in which positions occur only as p - q |
| Rope.RelativePositions | bench/ngram_ref/longcat_forward_ref.py:89-106 | equal distances give equal products, for every even dimension |
| Rope.RotationIsIsometry | bench/ngram_ref/longcat_forward_ref.py:89-106 | rotating both vectors at one position keeps their product, hence every norm |
| RopeAngles.SpeedPower | bench/ngram_ref/longcat_forward_ref.py:89-91 | the angle of pair k per position, to the power dim, times theta^(2k), is 1 |
| RopeAngles.SpeedIsUnique | bench/ngram_ref/longcat_forward_ref.py:89-91 | only one positive angle has that property |
| RopeAngles.TableAngles | bench/ngram_ref/longcat_forward_ref.py:89-93 | both halves of the cosine and the sine table hold, at position t and pair k, the function of t times that angle |
| RopeAngles.RowTurned | bench/ngram_ref/longcat_forward_ref.py:96-106 | places k and dim/2 + k of a rotated row hold entries 2k and 2k + 1 turned by t times that angle |
| Backbone.TotalPositive | bench/ngram_ref/longcat_forward_ref.py:143-144 | the softmax denominator is positive whenever one score is finite |
| Backbone.SoftmaxMasked | bench/ngram_ref/longcat_forward_ref.py:141-144 | a masked position changes no maximum, gets weight 0 and leaves the other weights |
| Backbone.AttendPrefix | bench/ngram_ref/longcat_forward_ref.py:140-145 | attention at position t over any longer sequence equals attention over a prefix that contains t |
| Backbone.MlaPrefix | bench/ngram_ref/longcat_forward_ref.py:109-146 | the attention block on a prefix gives the prefix of its output |
| LayerRun.Moe | bench/ngram_ref/longcat_forward_ref.py:149-170 | the accumulating loop gives every row the weighted sum over its picks, identity experts included, and depends on that row only |
| Backbone.PicksAreTop | bench/ngram_ref/longcat_forward_ref.py:155-157 | the picks are topk different experts in falling order of score plus bias, and no expert left out has more |
| LayerRun.RunLayer | bench/ngram_ref/longcat_forward_ref.py:182-206 | the in-place updates of h compute the layer function; the result has the properties of the next rows: with one part switched on it alone is added, and the five parts form the chain |
| LayerLaws.OnePartOnly | bench/ngram_ref/longcat_forward_ref.py:182-206 | with both output and both down projections zero and the experts' scale 0 a layer is the identity; with one of the five parts on, the output is the input plus that part of the input, normed with that part's own weight |
| LayerLaws.PartsInOrder | bench/ngram_ref/longcat_forward_ref.py:182-206 | with the later parts off, each of the first MLP, second attention and second MLP adds its output, on what the layer gives with that part off |
| LayerLaws.LayerChain | bench/ngram_ref/longcat_forward_ref.py:182-206 | any layer: attention 0, MLP 0, attention 1 and MLP 1 are added in turn, each on the normed result before it, then the experts of the state after attention 0 |
| LayerLaws.SecondMlpMatters | bench/ngram_ref/longcat_forward_ref.py:196-203 | two layers that differ in the second MLP alone differ, row by row, by the two MLPs' outputs on one common row |
| AttentionLaws.NormLaw | bench/ngram_ref/longcat_forward_ref.py:79-81 | each normed entry squared, times the mean square plus eps, is the squared weighted entry, with its sign |
| AttentionLaws.MlpLaw | bench/ngram_ref/longcat_forward_ref.py:84-86 | the output is the down projection of a z with z·(1 + exp(-g)) = g·u for gate output g and up output u of every unit |
| AttentionLaws.QueryLaw | bench/ngram_ref/longcat_forward_ref.py:112-116 | head n's query: its stretch of outputs of the second projection on the normed low-rank query, scaled, the last part turned for the position |
| AttentionLaws.LatentLaw | bench/ngram_ref/longcat_forward_ref.py:118-126 | the latent row: the first outputs of the projection, normed with their own weight and scaled |
| AttentionLaws.KeyLaw | bench/ngram_ref/longcat_forward_ref.py:128-138 | head n's key: the first outputs of its stretch on the latent row, then the turned last outputs of the first projection, the same for every head |
| AttentionLaws.ValueLaw | bench/ngram_ref/longcat_forward_ref.py:128-130 | head n's value: the last outputs of its stretch on the latent row |
| AttentionLaws.ScoreScale | bench/ngram_ref/longcat_forward_ref.py:140-140 | the score scale is positive and its square times the head width is 1 |
| AttentionLaws.LoraScaleLaw | bench/ngram_ref/longcat_forward_ref.py:122-123 | a low-rank scale is positive, and 1 when off; when on, its square times the rank is the hidden size |
| AttentionLaws.AttendLaw | bench/ngram_ref/longcat_forward_ref.py:140-145 | attention at t, times the sum over positions up to t of the exponentials of scaled scores, is the sum of those exponentials times the value rows: the shift by the largest score cancels |
| AttentionLaws.MlaLaw | bench/ngram_ref/longcat_forward_ref.py:140-146 | the block's output is the output projection of the heads side by side, each attending with its own queries, keys and values |
| AttentionLaws.ScoreLaw | bench/ngram_ref/longcat_forward_ref.py:151-154 | router scores are positive, sum to 1, and stand to each other as the exponentials of the logits |
| AttentionLaws.BiasLaw | bench/ngram_ref/longcat_forward_ref.py:155-156 | the choice goes by score plus bias |
| AttentionLaws.MoeLaw | bench/ngram_ref/longcat_forward_ref.py:158-169 | an output entry is the flat sum over the picks of score times scale times the expert's output, or the row itself past the routed experts |
| LayerRun.RunLayers | bench/ngram_ref/longcat_forward_ref.py:182-217 | the dump starts with the input and each state is one chain of five parts on the one before; the logits are the products of the head's rows with the last state, normed |
| Backbone.LayerPrefix | bench/ngram_ref/longcat_forward_ref.py:182-206 | a whole layer on a prefix gives the prefix of the layer |
| Backbone.StackIsCausal | bench/ngram_ref/longcat_forward_ref.py:182-206 | any number of layers on a prefix gives the prefix of the full run |
| Backbone.LogitsAreCausal | bench/ngram_ref/longcat_forward_ref.py:214-217 | so do the logits |
| Backbone.AttendFirst | bench/ngram_ref/longcat_forward_ref.py:140-145 | attention at position 0 returns value row 0 whatever the query, keys and later rows are |
| Backbone.FirstPositionReadsItself | bench/ngram_ref/slice_l1_probe.py:65-74 | position 0's attention output is its value row through o_proj, independent of q, k and rope |
| Backbone.ScoresAreRelative | bench/ngram_ref/longcat_forward_ref.py:132-140 | the score of a query and a key, unrotated part included, depends on their positions only through the difference |
| Bf16.HalfIsRound | scripts/gen_moe_lora_adapter.py:26-30 | the generator's 16-bit result is the upper half of the oracle's 32-bit result, for every bit pattern |
| Bf16.RoundByHalves | scripts/moe_lora_oracle.py:137-141 | add-and-mask equals the case split on the dropped half: down, up, or to the even half on a tie |
| Bf16.RoundIdempotent | scripts/moe_lora_oracle.py:137-141 | rounding a rounded pattern changes nothing, NaNs included |
| Bf16.RoundKeepsSign | scripts/moe_lora_oracle.py:137-141 | a finite value keeps its sign and its magnitude never passes infinity |
| Bf16.UnitsMonotone | scripts/moe_lora_oracle.py:137-141 | larger bit patterns are strictly larger values, across exponent boundaries and subnormals |
| Bf16.NearestMagnitude | scripts/moe_lora_oracle.py:137-141 | no bf16 magnitude is nearer, and on a tie the chosen one is even |
| Bf16.RoundIsNearestEven | scripts/moe_lora_oracle.py:137-141 | for every finite input no signed bf16 value is nearer, ties go to the even pattern, overflow goes to infinity as in section 4.3.1 of IEEE 754-2019 |
| Bf16.NanSurvival | scripts/moe_lora_oracle.py:137-141 | a NaN stays a NaN iff its magnitude bits lie strictly between 0x7F808000 and 0x7FFF8000; below it becomes an infinity, above a zero |
| Safetensors.WriteSafetensors | scripts/preprocess_step3p7_experts.py:114-135 | length word, padded header and blob; the running offset gives every tensor its place in the blob |
| Safetensors.HeaderEntries | scripts/preprocess_step3p7_experts.py:114-125 | the entry of a name is that of the last tensor with that name |
| Safetensors.BlobSlice | scripts/preprocess_step3p7_experts.py:114-135 | the range of a tensor holds exactly its bytes |
| Safetensors.OffsetsCover | scripts/preprocess_step3p7_experts.py:114-125 | the ranges begin at 0, follow each other without gap or overlap, and end at the blob's length |
| Safetensors.ParseWritten | scripts/preprocess_step3p7_experts.py:74-82 | whenever the header length fits its 8 bytes, reading a written file gives back its header without metadata, the data starts 8-aligned and is the blob |
| Safetensors.ReadBack | scripts/preprocess_step3p7_experts.py:74-82 | a tensor reads back unchanged iff its name is not the metadata key and the last tensor of that name equals it |
| Safetensors.OnlyWrittenNames | scripts/preprocess_step3p7_experts.py:74-82 | a name is found iff it was written and is not the metadata key |
| Safetensors.PackedDigit | scripts/preprocess_step3p7_experts.py:132-132 | byte k of a packed number is its base-256 digit k, least significant first |
| Safetensors.FileLaid | scripts/preprocess_step3p7_experts.py:114-135 | a file is eight such digits of the header length, the JSON text, fewer than eight spaces up to a multiple of 8, and the data |
| LoraAdapter.WriteAdapter | scripts/gen_moe_lora_adapter.py:86-101 | for a given encoder, the growing header and blob make the same layout as the other writer, with every tensor's bf16 bytes |
| LoraAdapter.LoadSafetensors | scripts/moe_lora_oracle.py:111-134 | the dictionary loop yields every name of the header with its own decoding, and fails iff the header or some entry cannot be decoded |
| LoraAdapter.HalvesOfBytes | scripts/moe_lora_oracle.py:124-126 | widening the generator's bytes gives the rounded floats |
| LoraAdapter.DecodePacked | scripts/moe_lora_oracle.py:121-133 | little-endian numbers of the declared count decode to themselves for F32, to their widening for F16, and to their upper-half words for BF16 |
| LoraAdapter.GeneratorOracleRoundTrip | scripts/moe_lora_oracle.py:111-141 | what the generator wrote, the oracle reads as the bf16 rounding of every float, with its shape |
| LoraAdapter.LoadedNames | scripts/gen_moe_lora_adapter.py:86-101 | the names in the file are exactly those generated, less the metadata key |
| LoraAdapter.LoadWritten | scripts/moe_lora_oracle.py:111-134 | loading what the generator wrote for arrays of distinct names succeeds and yields exactly their names, each with its rounded floats and shape |
| ExpertSplit.ExpertNamesInjective | scripts/preprocess_step3p7_experts.py:66-71 | two expert names coincide only for the same expert of the same matched name |
| ExpertSplit.ExpertNotFused | scripts/preprocess_step3p7_experts.py:47-71 | an expert's name never looks fused |
| ExpertSplit.SplitConserves | scripts/preprocess_step3p7_experts.py:182-200 | the experts' bytes joined are the tensor's iff the expert count divides their number |
| ExpertSplit.CheckpointConserved | scripts/preprocess_step3p7_experts.py:182-213 | output bytes never exceed input bytes, and equal them (in number and in content) iff every split divides |
| ExpertSplit.SizedDivides | scripts/preprocess_step3p7_experts.py:182-200 | a tensor whose data holds a whole number of bytes per element splits evenly |
| ExpertSplit.WellFormedConserved | scripts/preprocess_step3p7_experts.py:182-213 | so a checkpoint whose data agrees with its shapes is kept byte for byte |
| ExpertSplit.RaggedLosesByte | scripts/preprocess_step3p7_experts.py:182-200 | three bytes split among two experts keep two |
| ExpertSplit.OutputsNotFused | scripts/preprocess_step3p7_experts.py:182-213 | nothing in the output would be split again |
| ExpertSplit.RewriteIdempotent | scripts/preprocess_step3p7_experts.py:182-213 | rewriting any selection of written tensors, in any order, gives them back unchanged; the second run sorts names again, so only their order can differ |
| ShardPacking.FlushShard | scripts/preprocess_step3p7_experts.py:153-166 | an empty shard writes nothing; otherwise the shard becomes the next file, the accumulator empties and every name points to the last shard that holds it |
| ShardPacking.IndexShard | scripts/preprocess_step3p7_experts.py:162-163 | the shard's names point to it and all others stay |
| ShardPacking.Append | scripts/preprocess_step3p7_experts.py:195-213 | one output tensor keeps the packing invariant: order, byte counter, shard sizes, files, index |
| ShardPacking.ProcessFused | scripts/preprocess_step3p7_experts.py:182-204 | a fused tensor contributes its experts in order, and the report counts it once |
| ShardPacking.ProcessTensor | scripts/preprocess_step3p7_experts.py:182-213 | either branch contributes the tensor's outputs and keeps invariant and report |
| CheckpointRun.ProcessCheckpoint | scripts/preprocess_step3p7_experts.py:138-244 | the shards in order are all outputs in order, every shard but the last reaches the limit, none did before its last tensor, every file is its shard, the index points into them and the totals are those of the output; with clash-free inputs, looking up prefix.experts.e.proj.suffix for any expert e of a fused input leads to a file that, if its header length fits, reads back bytes e·per to (e+1)·per, the shape without its first dimension and the dtype, and any other input reads back under its own name |
| CheckpointRun.AllDelivered | scripts/preprocess_step3p7_experts.py:138-244 | that last part, for any packing that ends as the loop does |
| CheckpointRun.PartsMatch | scripts/preprocess_step3p7_experts.py:47-63 | a name of the form prefix.proj.suffix with a prefix that ends in .moe, one of the three projections and one of the four suffixes, not excluded, is fused and matched into these parts |
| CheckpointRun.FusedHasParts | scripts/preprocess_step3p7_experts.py:47-63 | every fused name has such parts |
| Text.DecimalReads | scripts/preprocess_step3p7_experts.py:71-71 | an index is written without leading zeros as digits that stand for it |
| ShardPacking.IndexFindsEveryTensor | scripts/preprocess_step3p7_experts.py:153-244 | when no two inputs clash, looking a written name up in the index and reading it from that file gives the tensor, for every tensor of every shard whose header length fits |
| ShardPacking.OutputNamesDistinct | scripts/preprocess_step3p7_experts.py:66-71 | all output names differ iff no two inputs clash |
| ShardPacking.ClashIff | scripts/preprocess_step3p7_experts.py:66-71 | two inputs give a common name iff both split and match alike, or one passes through named like an expert of the other, or both pass through named alike |
| ShardPacking.OutputCount | scripts/preprocess_step3p7_experts.py:182-213 | the output has one tensor per passed-through tensor and one per expert |
| ShardPacking.DryRun | scripts/preprocess_step3p7_experts.py:263-293 | the predicted count is right iff the split count times the first expert count is the number of experts |
| ShardPacking.UniformPrediction | scripts/preprocess_step3p7_experts.py:263-293 | in particular when all fused tensors have one expert count |
| ShardPacking.UnevenMispredicted | scripts/preprocess_step3p7_experts.py:263-293 | two tensors of two and three experts: four outputs predicted, five written |
| ChkiTable.ReachOf | scripts/chki_reach_table.py:90-101 | the kernel paths, and the hardware of all of them by owner and by reach |
| ChkiTable.UnionNotChecked | scripts/chki_reach_table.py:172-183 | the union of the hardware quoted in the third cells |
| ChkiTable.RenderTable | scripts/chki_reach_table.py:186-194 | marker, heading, owed row and rows, one per line, owed row computed from the rows |
| ChkiTable.ParseTable | scripts/chki_reach_table.py:144-160 | the accumulating loop collects exactly the data lines, in order |
| ChkiTable.Without | scripts/chki_reach_table.py:197-200 | exactly the rows of other PRs |
| ChkiRows.WithoutConcat | scripts/chki_reach_table.py:197-200 | leaving a PR out of two joined tables is leaving it out of each, so the other rows keep their order |
| ChkiTable.ParseBars | scripts/chki_reach_table.py:144-169 | a printed line of clean cells reads back as those cells unless it is a heading or the owed row |
| ChkiTable.ParsedIsClean | scripts/chki_reach_table.py:144-160 | whatever a line holds, its cells come out clean |
| ChkiTable.ParseLinesClean | scripts/chki_reach_table.py:144-160 | so does every row of every comment |
| ChkiTable.Record | scripts/chki_reach_table.py:330-346 | a merge without kernel paths writes nothing, one without the marker is refused, any other writes the upserted table |
| ChkiCells.ReachedIff | scripts/chki_reach_table.py:90-101 | a hardware is reached iff a changed path under kernels/ has it as its owner or lists it |
| ChkiCells.RecordedSays | scripts/chki_reach_table.py:115-126 | the row of a good merge with quotable names reads back with the PR first, the unchecked reached hardware in the third cell and the checked reached hardware in the fourth |
| ChkiCells.CellsPartition | scripts/chki_reach_table.py:119-126 | the two cells have nothing in common and together are what the merge reaches |
| ChkiCells.LatestSays | scripts/chki_reach_table.py:144-200 | over any sequence of such merges, every row left says so of the latest merge of its PR, and every recorded PR has such a row |
| ChkiCells.CondenseLaw | scripts/chki_reach_table.py:104-112 | the second cell quotes the first six directories in order, and ends with how many more there are, if any, and the number of changed paths |
| ChkiCells.ParentLaw | scripts/chki_reach_table.py:108-108 | the directory of d/f is d, and of a name without a slash the dot |
| Lines.SplitUnlines | scripts/chki_reach_table.py:147-147 | joining lines and splitting them again gives the lines |
| Lines.TickedStep | scripts/chki_reach_table.py:172-183 | a backticked name is found, with whatever the rest of the text holds |
| ChkiLedger.TickedGood | scripts/chki_reach_table.py:172-183 | a name read from a clean cell can be quoted again |
| ChkiLedger.CellTicked | scripts/chki_reach_table.py:115-116 | reading the quotes of a printed cell gives back its set iff no name is empty or holds a backtick |
| ChkiLedger.CellClean | scripts/chki_reach_table.py:115-116 | a printed cell is clean iff every name is free of bars and line breaks |
| ChkiLedger.ParseRendered | scripts/chki_reach_table.py:144-194 | a printed table of clean rows reads back as its rows, less those that print like headings |
| ChkiLedger.SurvivesIff | scripts/chki_reach_table.py:144-160 | a row of clean cells survives printing iff its cells are not those of the header, the separator or the owed row |
| ChkiLedger.ReparseAnyBody | scripts/chki_reach_table.py:144-194 | for any comment text, printing what was parsed and parsing again gives the same rows iff all survive |
| ChkiLedger.RerenderReproduces | scripts/chki_reach_table.py:186-194 | re-rendering a parsed table reproduces it character for character |
| ChkiLedger.CondenseClean | scripts/chki_reach_table.py:104-112 | the condensed list of directories and file count is clean iff every directory it shows is |
| ChkiLedger.FreshRowIff | scripts/chki_reach_table.py:119-126 | the row of a merge is clean, survives, and its third cell reads as the unchecked hardware iff its names and shown directories are free of bars and line breaks and the owed names can be quoted |
| ChkiLedger.WithoutKeeps | scripts/chki_reach_table.py:197-200 | taking a PR out removes all it owes and nothing else |
| ChkiLedger.MergeStep | scripts/chki_reach_table.py:339-346 | after one read, parse, upsert, render, the PR owes exactly what it left unchecked and every other PR what it owed |
| ChkiRows.MergeRow | scripts/chki_reach_table.py:339-346 | the re-read rows are the other PRs' rows, in order and unchanged, then the new row if it has no bar |
| ChkiLedger.OutstandingStep | scripts/chki_reach_table.py:339-346 | what is outstanding by the history of merges changes with one merge as the table does |
| ChkiLedger.LedgerIsExact | scripts/chki_reach_table.py:144-200 | over any sequence of merges a PR owes a hardware in the table iff its latest recorded merge left it unchecked, and PRs keep one row each |
| ChkiRows.TableIsLatestRows | scripts/chki_reach_table.py:144-200 | over any sequence of merges that print on one line, readable or not, the rows are the starting rows no merge replaced, then what the latest merge of every recorded PR left, in merge order |
| ChkiRows.LatestIff | scripts/chki_reach_table.py:144-200 | a row is left by the merges iff one of them wrote it readably and no later one of its PR came |
| ChkiRows.RecordedHasRow | scripts/chki_reach_table.py:197-200 | if all merges are readable, a recorded PR keeps a row whatever comes later, even when it owes nothing |
| ChkiLedger.OwedIsUnion | scripts/chki_reach_table.py:172-183 | a hardware is in the union iff some PR's row owes it |
| ChkiLedger.OwedRowIsExact | scripts/chki_reach_table.py:186-194 | the printed owed row lists exactly the hardware outstanding for some PR after all merges |
| ChkiLedger.RenderedHasMarker | scripts/chki_reach_table.py:129-141 | a printed table is never refused at the next merge |
| ChkiLimits.RowReadsBackIff | scripts/chki_reach_table.py:144-169 | any four cells without line breaks read back as themselves iff they are clean and not those of a heading or the owed row |
| ChkiLimits.RowKeptIff | scripts/chki_reach_table.py:339-346 | whatever a merge holds, its row is in the table read next iff its cells are clean and no heading |
| ChkiLimits.RecordedIff | scripts/chki_reach_table.py:339-346 | its row is there and says what it owes iff its names and shown directories are free of bars and line breaks and the owed names can be quoted |
| ChkiLimits.BarInCellLosesRow | scripts/chki_reach_table.py:144-169 | a bar in any of the four cells, wherever and however often, makes the row unreadable |
| ChkiLimits.LostMerge | scripts/chki_reach_table.py:339-346 | a merge whose cells print on one line but hold a bar leaves exactly the other PRs' rows: its own row is lost and its PR's earlier row with it |
| ChkiLimits.BarredMergeLost | scripts/chki_reach_table.py:339-346 | a merge that owes a hardware with a bar in its name, recorded into an empty table, leaves a table without rows |
| IncludeWalk.PushIncludes | scripts/check_cross_hardware.py:138-144 | the includes are pushed in order, a bare staged name as its staged file under the same directory, any other as the file beside it if there is one |
| IncludeWalk.Walk | scripts/check_cross_hardware.py:129-144 | the stack loop ends (unseen files, then stack length) and records the set that the lemmas describe |
| IncludeWalk.WalkIsClosed | scripts/check_cross_hardware.py:129-144 | every recorded file was reached, and its includes under its first directory are recorded |
| IncludeWalk.WalkSound | scripts/check_cross_hardware.py:129-144 | the source is recorded, and only files reachable by resolved includes are |
| IncludeWalk.WalkComplete | scripts/check_cross_hardware.py:129-144 | everything reachable is recorded when a file's includes lead to the same files from every directory it is reached from |
| IncludeWalk.ResolveAllIff | scripts/check_cross_hardware.py:138-144 | where a file leads: a bare staged name to the staged file without a change of directory, any other include to the file beside it, if it exists, in that file's directory |
| IncludeWalk.AnchoredIsComplete | scripts/check_cross_hardware.py:129-144 | so everything reachable is recorded when all includes are of staged headers or of names that resolve alike everywhere |
| IncludeWalk.DirectoryMatters | scripts/check_cross_hardware.py:129-144 | a three-file tree with symlinks and a reachable header that the walk misses |
| IncludeWalk.DivergenceLosesFile | scripts/check_cross_hardware.py:129-144 | whenever two visits of one real file resolve an include name differently, some contents of the files make the walk miss a reachable one |
| SseLoop.ReadLine | bench/ladder38/harness_w56_conc_ladder.py:227-254 | one line's effect, and whether it was [DONE] |
| SseLoop.DrainBuffer | bench/ladder38/harness_w56_conc_ladder.py:225-254 | the inner loop takes lines until [DONE], an error, or no line is left, and keeps the rest |
| SseLoop.OneRequest | bench/ladder38/harness_w56_conc_ladder.py:212-259 | the outer loop's outcome over any list of chunks |
| SseLoop.DrainConsumes | bench/ladder38/harness_w56_conc_ladder.py:225-254 | draining consumes a prefix of the lines of all text to come, whatever arrives later |
| SseLoop.ChunksConsumePrefix | bench/ladder38/harness_w56_conc_ladder.py:222-259 | every cut gives the outcome of a prefix of the complete lines: all of them, or up to some [DONE] |
| SseLoop.AllLinesReachable | bench/ladder38/harness_w56_conc_ladder.py:222-259 | some cut reads all lines |
| SseLoop.DonePrefixReachable | bench/ladder38/harness_w56_conc_ladder.py:222-259 | for every [DONE] line some cut reads nothing after it |
| SseLoop.ChunkingIrrelevantIff | bench/ladder38/harness_w56_conc_ladder.py:222-259 | all cuts of a text have the batch outcome iff stopping at any [DONE] gives the outcome of reading on |
| SseLoop.QuietStreamsAreSafe | bench/ladder38/harness_w56_conc_ladder.py:222-259 | a text with no effective line after its first [DONE], or without one, meets that condition |
| SseLoop.ErrorAfterDone | bench/ladder38/harness_w56_conc_ladder.py:222-259 | a text with an error line right after a [DONE] does not |
| SseLoop.ReadTogether | bench/ladder38/harness_w56_conc_ladder.py:222-259 | in one chunk such a text is a success |
| SseLoop.ReadApart | bench/ladder38/harness_w56_conc_ladder.py:222-259 | cut after the [DONE] it is a server error |
| SseLoop.ChunkingMatters | bench/ladder38/harness_w56_conc_ladder.py:222-259 | concrete texts, also ones whose last data line is [DONE], that two cuts read as success and as error |
| SseLoop.GoodIff | bench/ladder38/harness_w56_conc_ladder.py:227-259 | a request is good iff no line carries an error or raises, and a [DONE] or a finish reason was seen |
| SseCounts.DataLaw | bench/ladder38/harness_w56_conc_ladder.py:227-235 | a line that is a tag and a payload, with white space around it, is a done mark iff the payload is [DONE], else it is what its payload parses to |
| SseCounts.OtherLaw | bench/ladder38/harness_w56_conc_ladder.py:227-229 | any other line is skipped |
| SseCounts.CutAtFeeds | bench/ladder38/harness_w56_conc_ladder.py:225-226 | the complete lines are those that a line feed ends |
| SseCounts.FoldReports | bench/ladder38/harness_w56_conc_ladder.py:211-259 | a finished request reports as many deltas as choices with content, the last finish reason given, and the last completion and prompt counts given, 0 if none; a truncated one saw no finish reason and no [DONE] |
| SseCounts.RequestReports | bench/ladder38/harness_w56_conc_ladder.py:211-259 | whatever the chunks, the report is that of all complete lines, or of those up to some [DONE] |
| SseCounts.SettledReports | bench/ladder38/harness_w56_conc_ladder.py:211-259 | and of all of them when every [DONE] settles the outcome |
| ReplayDecode.MergeTools | scripts/replay_dump.py:117-126 | the padding and appending loop over a chunk's tool deltas computes the fold that the lemmas are about |
| ReplayDecode.ParseSse | scripts/replay_dump.py:85-137 | over the raw text: data lines that are not empty, [DONE] or malformed are decoded, and give content, calls, finish reason, last usage and chunk count; fails iff a payload makes the decoder raise |
| ReplayDecode.RaisesIff | scripts/replay_dump.py:96-107 | decoding a stream fails iff one of its lines does |
| ReplayDecode.CallsPerIndex | scripts/replay_dump.py:117-126 | there is one call per index up to the largest, its arguments the concatenation for that index, its name the last one given |
| ReplayDecode.SameCalls | scripts/replay_dump.py:117-126 | equal per-index names and arguments give equal calls, whatever the interleaving |
| ReplayDecode.SplitDelta | scripts/replay_dump.py:117-126 | cutting a delta's arguments anywhere changes nothing |
| ReplayDecode.SwapDeltas | scripts/replay_dump.py:117-126 | swapping neighbouring deltas of different indices changes nothing |
| ReplayDecode.Replace | scripts/replay_dump.py:117-126 | any stretch of deltas can be replaced by one with the same per-index view |
| ReplayDecode.AbsorbedViews | scripts/replay_dump.py:85-137 | a stream's summary is its joined text, the fold of its joined deltas, its last finish reason and its last usage, however chunked |
| ReplayDecode.ParseAnthropicSse | scripts/replay_dump.py:140-219 | over the raw text: content, calls through the block map, mapped stop reason, merged usage and event count of the decoded data lines; fails iff a payload makes the decoder raise |
| ReplayDecode.StopWords | scripts/replay_dump.py:195-212 | a stop reason of tool_use, end_turn or max_tokens is reported as tool_calls, stop or length, any other as it is |
| ReplayDecode.FormatsAgree | scripts/replay_dump.py:140-219 | every Anthropic event sequence, well formed or not, decodes to what its event-by-event OpenAI translation decodes to |
| ReplayDecode.SameMessageSameSummary | scripts/replay_dump.py:85-219 | any OpenAI stream of the same message, differently chunked and interleaved, gives the same summary |
| ReplayMessages.OpenAiRoundTrip | scripts/replay_dump.py:85-137 | an encoded message, in any pieces, decodes to its text, calls, finish reason and usage |
| ReplayMessages.AnthropicRoundTrip | scripts/replay_dump.py:140-219 | the same for the other encoder, with the stop reason mapped there and back and the usage sent in two parts |
| ReplayMessages.FormatsRoundTrip | scripts/replay_dump.py:85-219 | one message, cut in two ways and sent in either format, decodes alike iff its finish reason is none of the three stop reasons that the decoder maps |
| ReplayFrames.DataLine | scripts/replay_dump.py:96-106 | a data line with white space anywhere around its payload carries what the payload decodes to, nothing if it is empty or skipped |
| ReplayFrames.OtherLine | scripts/replay_dump.py:96-99 | any other line carries nothing |
| ReplayFrames.RawRoundTrip | scripts/replay_dump.py:85-137 | a message sent as the raw text of its chunks, one data line and one empty line each and [DONE] at the end, decodes to what it says |
| ReplayFrames.AnthropicRawRoundTrip | scripts/replay_dump.py:140-219 | so does the raw text of its events, with the stop reason mapped back |
| ShadowTopk.Bump | scripts/parse_shadow_topk.py:45-52 | one update keeps the table equal to the counts over all samples so far, at every depth and rank |
| ShadowTopk.Take | scripts/parse_shadow_topk.py:79-82 | one sample updates both tables and all counters |
| ShadowTopk.Judge | scripts/parse_shadow_topk.py:64-83 | one target line adds exactly its samples up to the first position without an entry, and fails iff its drafts run past its tokens before such a position |
| ShadowTopk.Join | scripts/parse_shadow_topk.py:54-83 | the join fails iff some line does; otherwise tables and counters are the counts over the samples that pair each position with its latest earlier entry |
| ShadowCounts.LatestLaw | scripts/parse_shadow_topk.py:57-70 | the list for a position is that of the last line before that prints one |
| ShadowCounts.TablesCountLines | scripts/parse_shadow_topk.py:45-83 | every entry of both tables is a number of target lines: those whose draft of that depth is judged, on the spine if conditional, and whose target token is in the first r + 1 ids, or in none |
| ShadowCounts.CountersCountDrafts | scripts/parse_shadow_topk.py:72-83 | the mismatch counter is the number of judged drafts that are not the first id, the joined counter that of judged drafts on the spine |
| ShadowTopk.HitsMonotone | scripts/parse_shadow_topk.py:45-52 | top-r hits are nondecreasing in r, and hits and misses together never exceed the total |
| ShadowTopk.ConditionalWithin | scripts/parse_shadow_topk.py:79-83 | every conditional count is at most the unconditional one |
| ShadowTopk.DepthsShrink | scripts/parse_shadow_topk.py:68-83 | for every log, conditional totals are nonincreasing in depth and, with no mismatch and no empty id list, at most the top-1 hits of the depth before |
| ShadowTopk.NoMismatch | scripts/parse_shadow_topk.py:74-75 | a zero mismatch counter means that no sample mismatched |
| TreeShape.ETree | scripts/tree_shape_search.py:41-47 | the backward loop computes one plus the sum over depths of reach probability times that depth's gain |
| TreeShape.EChain | scripts/tree_shape_search.py:50-54 | the chain loop computes the nested product form |
| TreeShape.TailIsSum | scripts/tree_shape_search.py:41-47 | the backward recurrence equals the closed sum |
| TreeShape.TreeWithoutHedges | scripts/tree_shape_search.py:41-54 | a tree with no hedges equals the chain one wider |
| TreeShape.ChainIsProducts | scripts/tree_shape_search.py:50-54 | a chain of width k expects 1 + s1 + s1·s2 + ... with k terms |
| TreeShape.HedgesWorth | scripts/tree_shape_search.py:41-47 | changing one depth's hedges changes E by the product of the coverages before it times 0.95 times the change of cumulative coverage at rank 1 + min(w, 3) |
| TreeShape.WideningHelps | scripts/tree_shape_search.py:41-47 | widening hedges at any depths never lowers any tail, and a tail is at most the remaining depth |
| TreeShape.ExpectationBounds | scripts/tree_shape_search.py:41-47 | E lies between 1 and 1 plus the spine length and grows with every width |
| MeasuredCoverage.Load | scripts/tree_shape_search.py:26-38 | the measured depths in order, then the deepest one repeated up to the eighth |
| MeasuredCoverage.TalliedContiguous | scripts/parse_shadow_topk.py:54-83 | the conditional table of any log has the depths 1 up to its deepest without gaps |
| MeasuredCoverage.MeasuredIsCumulative | scripts/tree_shape_search.py:26-38 | for every log, the rounded rates that the search loads are cumulative coverage at every depth |
| MeasuredCoverage.MeasuredExpectation | scripts/tree_shape_search.py:26-47 | so for every log and every shape, E lies between 1 and 1 plus the spine length |
| CutSearch.BinarySearch | scripts/make_long_prompt.py:187-193 | with nondecreasing counts the largest cut within the target; without, still a cut within it whose successor exceeds it |
| CutSearch.FindCut | scripts/make_long_prompt.py:187-202 | any cut returned has exactly the target count; with nondecreasing counts there is one iff some cut has it, and it is the last of two or more words that ends a sentence, or the last exact cut if none does |
| CutSearch.ScanBack | scripts/make_long_prompt.py:196-202 | whatever the counts do, the answer is the last sentence end reached through cuts of the target count, or the found cut |
| CutSearch.ExactCutExists | scripts/make_long_prompt.py:194-195 | with nondecreasing counts the search fails only when no cut has the target count |
| CutSearch.ScanPicksLast | scripts/make_long_prompt.py:196-202 | with nondecreasing counts, stopping at the first other count loses no sentence-ending cut |
| PowerWindow.Sampler.constructor | bench/ladder38/power_window.py:80-89 | no rows, and unavailable when the tool was not found |
| PowerWindow.Sampler.Read | bench/ladder38/power_window.py:91-111 | a sample is appended unless its power is missing |
| PowerWindow.Sampler.Integrate | bench/ladder38/power_window.py:145-204 | the report, with energy, extremes, gaps, coverage, the other columns and all reasons, is that of the sorted samples in the window; the rows are unchanged |
| PowerWindow.Trapezoids | bench/ladder38/power_window.py:161-166 | energy and gaps over neighbouring samples |
| PowerWindow.ByTimeSorts | bench/ladder38/power_window.py:155-160 | the selected samples are in time order and are the same samples |
| PowerWindow.SelectedInWindow | bench/ladder38/power_window.py:155-160 | all of them lie in the window |
| PowerLaws.SelectedIff | bench/ladder38/power_window.py:155-160 | each sample is selected as often as it was read if it lies in the window, else not at all |
| PowerWindow.GapsCover | bench/ladder38/power_window.py:163-167 | the gaps sum to last time minus first |
| PowerWindow.EnergyBounds | bench/ladder38/power_window.py:161-167 | energy lies between the lowest and the highest power times the covered time |
| PowerWindow.EnergySplits | bench/ladder38/power_window.py:161-166 | energy is additive when split at any sample |
| PowerLaws.AffineExact | bench/ladder38/power_window.py:161-166 | for power p + q·t the energy is exactly its integral over the covered time |
| PowerWindow.MeanWithinExtremes | bench/ladder38/power_window.py:145-204 | the covered time fits the window, and the reported mean, when there is one, lies between the reported extremes |
| PowerWindow.TrustNeedsSamples | bench/ladder38/power_window.py:167-204 | a trustworthy report has at least 1 + 0.45 window/period samples |
| PowerLaws.TrustIff | bench/ladder38/power_window.py:193-202 | a report is trustworthy iff there are two samples, the window is at least 10 s, no two neighbouring samples are more than two periods apart, and the samples span nine tenths of the window |
| PowerLaws.ReportWritten | bench/ladder38/power_window.py:167-192 | extremes and largest gap are attained and not exceeded; mean, coverage, edge error and the two fractions are the ratios they are called |
| PowerLaws.LagLaw | bench/ladder38/power_window.py:170-184 | where averaged and instantaneous power are c apart in every sample that has both, the lag is c; without such samples there is none |
| PowerLaws.KnownIff | bench/ladder38/power_window.py:187-189 | the averaged columns hold exactly the known values |
| PowerWindow.SideInRange | bench/ladder38/power_window.py:171-192 | the cap and brake fractions lie between 0 and 1, the clock and utilisation means between the extremes of their known values (0 if none is known), and the peak temperature is the largest known one |
| LineOwner.Parse | scripts/check_bench_threshold_prose.py:193-234 | the loop over the lines leaves the bounds of the line-by-line state machine that the next row describes |
| BoundTables.BoundsAreTables | scripts/check_bench_threshold_prose.py:193-234 | every bound holds the last value of each key before its table ends and the comments between its header and its first key, none without a key; every metric header has one bound, in order |
| LineKinds.KeyIff | scripts/check_bench_threshold_prose.py:218-220 | a line sets min, max or noise to v iff it is that word, an equals sign and a number of value v, with any white space between |
| LineKinds.MetricIff | scripts/check_bench_threshold_prose.py:206-208 | a line is the header of a metric iff it is the bracketed dotted path that ends in its name |
| LineKinds.EntryIff | scripts/check_bench_threshold_prose.py:201-205 | a line is an entry header iff it is [[benchmarks]] |
| LineKinds.CommentLaw | scripts/check_bench_threshold_prose.py:228-231 | the text of a comment line is what follows its marks, stripped |
| LineKinds.ParsedTold | scripts/check_bench_threshold_prose.py:193-234 | min, max and noise of every returned bound are the last values that lines of its table give, and its comments, in order, are exactly the comment lines between its header and its first key |
| LineOwner.FillEnclosing | scripts/check_bench_threshold_prose.py:284-288 | the first pass gives every line the entry it stands in |
| LineOwner.ClaimPreambles | scripts/check_bench_threshold_prose.py:291-302 | the second pass, upward from every header, changes exactly the comment and blank lines directly above it |
| LineOwner.OwningEntry | scripts/check_bench_threshold_prose.py:273-302 | together they give every line its owner |
| LineOwner.OwnerIff | scripts/check_bench_threshold_prose.py:273-302 | a line belongs to the next entry when only comments and blanks lie between it and that header, else to the enclosing one |
| LineOwner.PreambleIsNextEntry | scripts/check_bench_threshold_prose.py:291-302 | the entry a preamble is given to is the one right after the enclosing one |
| LineOwner.OwnerAgreesWithParser | scripts/check_bench_threshold_prose.py:193-302 | the parser has one bound per metric header inside an entry, and owner and parser agree on its entry |
| LineOwner.PerEntry | scripts/check_bench_threshold_prose.py:308-310 | looking up an entry and a name gives the last bound with both |
| LineOwner.FirstOpIsLongest | scripts/check_bench_threshold_prose.py:138-152 | the first operator that matches is the longest one that does |

## Left out

- Floating point: rounding errors, denormal flushing and dtype casts of the reference models; numbers are reals and `exp`, `cos`, `sin`, `sqrt`, `pow` are functions with stated laws.
- JSON, TOML and log text, UTF-8 decoding, regular expressions beyond the ones modelled, chat templates and tokenizers: given functions or already parsed values.
- Files, HTTP, subprocesses, threads, locks, clocks and printing: their results are parameters.
- The Rust engine, the CUDA kernels and kernel layout discovery: not part of this model.
- NgramEmbedding.NgramEmbed: non-empty chunks only; for an empty chunk the source's slice keeps the whole context (`FromEndLength`). The memo of reduced powers and tensor dtypes are not modelled.
- NgramEmbedding.AnyCutEqualsOneShot: one row; runs with several rows and reorders are `Final`.
- LoraAdapter.LoadSafetensors: the widening of F16 is a given function; pairing of tensors, the adapter configuration and the expected deltas are left out.
- CheckpointRun.ProcessCheckpoint: inputs are the shards' tensors in name order; shard file names, their renaming, the index file's JSON and the copying of configuration files are left out, shards are numbers.
- ChkiTable.RenderTable: `sorted` is a given listing of a set without repetition, and a path's parent is the text before its last slash, without path normalisation.
- ChkiTable.Record: the run without a comment, which prints a table of the one row, and reading the checked hardware from the workflow files are left out.
- IncludeWalk.WalkComplete: one direction; directory dependence need not lose a file, because another route can still record it. Symbolic links and the file system are a given resolution function.
- Layout discovery, the outer loops of the cross-hardware index, trailers and symlink reports.
- SseLoop.OneRequest: the timing fields and the HTTP status are left out; chunk boundaries inside a UTF-8 character are not modelled, chunks are text.
- ReplayDecode.SameMessageSameSummary: chunk counts differ between wire formats and are compared separately.
- LineOwner.Parse: the prose rules A1 to A5 and B1 beyond ownership and operator choice are left out.
- ChkiLedger.LedgerIsExact: for merges that are recorded, as `ChkiLimits.RecordedIff` says; a PR reference starts with `#` and is a clean cell, which covers the source's `#` and digits.
- Safetensors.WriteSafetensors: packing a header length of 2^64 or more raises in the source, and the read-back results ask that it fits. Input data is taken as long as its offsets say; as in the source it is not compared with the shape.
- LayerRun.RunLayers: one sequence; ties between equal router scores are broken by a given sorting function; weight loading is left out.
- PowerWindow.Sampler.Integrate: the tool's lines are given as parsed fields; starting, stopping and the idle baseline are left out.
- NgramEmbedding.Forward: the embedding uses exact ids; they are the 64-bit ones where `NgramHash.NoWrap` applies, and `WrappedIdsRefine` covers the rest. Attention and the layers after the embedding are left out.
- ReplayDecode.ParseSse: which payloads make the decoder raise is given with the payload; the blocking response parsers and the degeneration fingerprint are left out.
- MeasuredCoverage.Load: rounding to four places is a given function that keeps order, 0 and 1; JSON keys are numbers, and tables have at least four ranks.
- TreeShape.ETree: ranking of shapes and the cost models are left out.
- ShadowTopk.Join: the drafter's probabilities are read and not used by the source, and are left out.
- ChkiRows.TableIsLatestRows: merges whose cells hold line breaks are left out; such a row falls into lines that may read as other rows.
