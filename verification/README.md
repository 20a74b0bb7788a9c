# A verified model of ds2i

ds2i builds compressed inverted indexes and answers queries over them. This project models its algorithms in Dafny and proves
that the shortcuts they take do not change what they compute. Every file is one component:

| component | files |
|---|---|
| top-k queries with pruning | `TopKQueue`, `Bm25`, `WandData`, `QueryTerms`, `Postings`, `Traversal`, `UnionSweep`, `RankedOr`, `Wand`, `MaxScore`, `TermScores`, `RepeatedTerms`, `Agreement`, `CursorRefinement` |
| conjunctive and disjunctive queries | `Conjunction`, `Disjunction` |
| Elias-Fano and ranked bit vectors | `MonotoneSequence`, `BitVector`, `OneBits`, `EliasFano`, `EliasFanoEnumerator`, `RankedBitvector`, `RankedBitvectorEnumerator` |
| combined and partitioned sequences | `IndexedSequence`, `IndexedSequenceEnumerator`, `IntegerCodes`, `PartitionedSequence`, `PartitionedSequenceEnumerator` |
| the partition optimiser | `OptimalPartition` |
| the codec optimiser | `LowerHull`, `HybridIndex`, `HullTies` |
| block codecs and block lists | `InterpolativeCoding`, `BlockCodecs`, `BlockPostingList`, `DocumentEnumerator` |
| a whole index | `StrictEliasFano`, `PositiveSequence`, `FreqIndex` |
| the work queue | `SemiasyncQueue`, `QueuedIndex` |

How the model is built:

- Cursors, builders, queues and tables that the program updates in place are classes or arrays; methods state their whole new
  state against plain sequences. Pure arithmetic (layouts, codes, weights) is functions.
- Scores, prices and the eps parameters are exact reals, bits are `seq<bool>` and bytes are numbers below 256. Where 32-bit or
  64-bit wrap-around decides a result, it is written out: the window universe of the partitioner, the document gaps and the sums
  of block codecs, the words of the bit streams, and the `int` in the partitioned cursor.
- A top-k list is specified without a heap: it is descending and a best k of the bag of all document scores. Skipped documents are
  accounted for in ghost state, so that the result always refers to every document of the union.
- A sequence cursor refines a plain sequence `v` and an index into it, with the universe after the last element; searching means
  the first index whose element is at least the bound.

What the proofs found, stated as exact conditions or as inputs:

- `maxscore_query` weighs by `q_weight * freq` but bounds by the largest frequency alone. That bound is right if and only if the term
  occurs once (`WandData.FreqBoundDominatesIff`), and exactly the queries without a repeated term are answered exactly on every index
  (`MaxScore.Query`, `RepeatedTerms.ExactIffNoRepeatedTerm`). It also no longer ranks by BM25: the agreement with `ranked_or_query`
  that test/test_ranked_queries.cpp asks for holds on every index if and only if the query is empty (`Agreement.MaxScoreAgainstOr`,
  `Agreement.EmptyQuery`).
- `wand_query` stays exact with the raw frequency as bound, because a BM25 document weight is below 1.
- `compact_elias_fano::enumerator::next_geq` and its ranked-bitvector counterpart leave the size behind for bounds above the universe
  once the cursor is past the end; `Overruns` in both enumerators is the exact condition. Through a partitioned sequence this cannot
  happen, and its `next_geq` is right for every bound.
- `partitioned_sequence` reads the universe of a single partition through an `int`: right if and only if it is below 2^31
  (`PartitionedSequenceEnumerator.UniverseThroughIntIff`).
- `compact_ranked_bitvector::write` asserts `v <= universe`; `v == universe` would set a bit behind the vector
  (`RankedBitvector.UniverseIsBehind`), so the model asks for `v < universe`.
- `optimal_partition` starts all costs at that of a single block, which need not be reachable. Over all parameters, its cuts stay within
  `cost_opt` if and only if the whole as one piece costs no more than the single block (`OptimalPartition.AccountedIffWholeFits`), as it
  does for costs that grow with the universe. The loop opening windows need not end when truncation stops the bound from growing
  (`OptimalPartition.BoundsEndIff`).
- `stxxl::sort` promises no order on equal labels. If no block has two equal labels on its hull, the selection is optimal with any sort
  (`HullTies.OptimizeInSomeOrder`). A block is safe next to every other block, whatever the sort does with ties, if and only if the labels
  of its hull are all different (`HullTies.SafeIffLabelsAscend`).
- With ties in hull order, a budget is exceeded if and only if the fastest candidates of all blocks together exceed it
  (`HybridIndex.FitsIffFastestFits`; `HybridIndex.BudgetCanBeExceeded` is an instance).
- `semiasync_queue::complete` commits what is running only if something is pending (`SemiasyncQueue.CompleteOutcome`). If the last list
  filled up a batch, an index built then lacks that batch, and only then (`SemiasyncQueue.CompleteAfterAdd`,
  `QueuedIndex.AllIndexedIff`).
- The bit reader fetches whole words, up to three bytes behind a block: a block needs bytes behind it if and only if its payload does
  not fill whole words (`BlockCodecs.OwnBytesSufficeIff`). `BlockCodecs.Decode` asks for them to be readable.

## Model

| member | source | states |
|---|---|---|
| Wand.Query | queries.hpp:213-313 | For every query, index and k >= 1, the list returned is the top k of the BM25 scores of all documents holding a query term, scores being sums over the query as it stands (TermScores): whatever was skipped could not have entered. Terminates because every round moves a cursor forward |
| Agreement.WandAgainstOr | test/test_ranked_queries.cpp:43-55 | wand_query and ranked_or_query return the same list, on all inputs and exactly rather than within a tolerance |
| Agreement.MaxScoreAgainstOr | test/test_ranked_queries.cpp:70-75 | For maxscore_query this fails, whatever the logarithm is: for every query there is an index of one document, in non-empty lists, on which it and ranked_or_query return the same list if and only if the query is empty |
| Agreement.EmptyQuery | queries.hpp:494-495 | On every index and for every k, both answer the empty query with nothing; so the two agree on every index if and only if the query is empty |
| Agreement.MaxScoreIsLarge | queries.hpp:546-582 | On that index maxscore_query returns one score, at least the frequency |
| Agreement.OrIsSmall | queries.hpp:449-466 | There no score of ranked_or_query exceeds the weights of the query terms together |
| Wand.Round | queries.hpp:255-309 | One iteration: either no unaccounted document can enter and the search ends, or some cursor advances, none retreats, the visiting order stays sorted by docid, and every document passed over has been scored or proved unable to enter |
| Wand.FindPivot | queries.hpp:256-269 | The pivot is the first list at which the summed bounds would enter; all shorter prefixes of lists cannot, and if there is no pivot neither can all lists that are not exhausted |
| Wand.PivotAtOrBeyondFrontier | queries.hpp:260-277 | The pivot document is never below the first document that is not yet accounted for |
| Wand.CannotEnterBelow | queries.hpp:260-277 | A document before the pivot that is not accounted for scores at most the bounds of the lists before the pivot, hence cannot enter |
| Wand.ScorePivot | queries.hpp:279-288 | Scoring the leading cursors that are on the pivot gives the full score of the document, and exactly these cursors step on |
| Wand.BubbleDown | queries.hpp:299-307 | Swapping the one cursor that moved down to its place restores docid order over the same enumerators |
| Wand.AdvanceToPivot | queries.hpp:294-307 | One list before the pivot is moved up to it: a cursor advances, none retreats or passes the pivot, and sortedness is restored |
| Wand.Match | queries.hpp:278-292 | After a match the pivot is accounted for by its exact score and the order is sorted again |
| Wand.Search | queries.hpp:246-309 | When the loop ends, the bag of scores accounted for is the bag of the scores of the whole union |
| MaxScore.Query | queries.hpp:491-599 | For every query without a repeated term, every index and every k, the list returned is the top k of the summed frequencies over the whole union, in terms of the query as it stands, although documents found only in non-essential lists are never visited. For any query and k = 1, a first score that reaches the sum of all bounds ends the search |
| RepeatedTerms.ExactIffNoRepeatedTerm | queries.hpp:510-518 | For every query there is an index of non-empty lists on which its answer is the top 1 if and only if no term is repeated; with MaxScore.Query, exactly the queries without a repeated term are answered exactly on every index and for every k |
| RepeatedTerms.TrapSprings | queries.hpp:546-582 | On that index the first document already scores as much as all bounds together, and the second one scores more |
| MaxScore.Complete | queries.hpp:563-574 | With sound bounds, completing a score from the largest non-essential list down either reaches the exact score or gives up with a partial and an exact score that both cannot enter; the cursors touched stay usable for later documents |
| MaxScore.GrowNonEssential | queries.hpp:576-582 | After an insertion the non-essential prefix grows to the longest one whose summed bounds cannot enter |
| MaxScore.ScoreCandidate | queries.hpp:548-561 | The score over the essential lists, and the next candidate: between the two no essential list holds a document |
| MaxScore.Step | queries.hpp:546-589 | One iteration accounts for every document of the union before the next candidate, visited or not |
| MaxScore.Search | queries.hpp:520-589 | With sound bounds, ends with every document of the union accounted for, also when it ends because all lists have become non-essential |
| MaxScore.NonEssentialOnly | queries.hpp:578-580 | A document that only the first n lists hold scores at most their summed bounds; once those are barred it cannot enter |
| RankedOr.Query | queries.hpp:417-470 | The exhaustive operator returns the top k of the same scores over the whole union, each document once |
| RankedOr.Step | queries.hpp:449-466 | One document is offered with its exact score; up to the next one there is nothing in the union |
| UnionSweep.Sweep | queries.hpp:449-463 | The shared inner loop: the score collected over the cursors on a document, which cursors step, and the smallest document afterwards |
| Conjunction.AndQuery | queries.hpp:38-85 | The number of documents that hold every query term, for any order and repetition of the terms; 0 without terms |
| Conjunction.RankedAndQuery | queries.hpp:335-395 | The top k of the same scores over the documents that hold every term; nothing for no terms |
| Conjunction.Align | queries.hpp:61-69 | Moves the cursors from i on until one misses the candidate; the new candidate is larger and nothing in between is in all lists |
| Conjunction.StepFirst | queries.hpp:78-80 | After a match the next candidate is strictly larger, and no document in between is in all lists |
| Conjunction.Count | queries.hpp:58-84 | The result is the number of documents in all lists, for every position sequence the candidates take |
| Conjunction.Rank | queries.hpp:366-391 | Exactly the documents in all lists are offered, each once with its full score |
| Conjunction.MatchesOfPermutation | queries.hpp:52-56 | Sorting the lists by size changes no result |
| Conjunction.RemoveDuplicateTerms | queries.hpp:29-33 | Strictly increasing, with the same members as the input |
| Disjunction.OrQuery | queries.hpp:91-130 | The number of documents that hold some query term |
| Disjunction.Count | queries.hpp:105-127 | Every document of the union is counted once |
| QueryTerms.QueryFreqs | queries.hpp:136-150 | The distinct terms in increasing order, each with its number of occurrences |
| QueryTerms.QueryFreqsUnique | queries.hpp:136-150 | A query determines that list, so the result of an operator does not depend on how it was computed |
| QueryTerms.Bm25ListsBounded | queries.hpp:232-238 | The bound wand_query keeps per list dominates every BM25 contribution of that list, repeated terms included |
| QueryTerms.FreqListsBounded | queries.hpp:510-518 | The bound maxscore_query keeps per list dominates its contributions if no term is repeated |
| TermScores.Bm25ScoreByTerms | queries.hpp:232-238 | The BM25 score of a document, computed from distinct terms with counts, is the sum over all positions of the query of the weight of one occurrence (list size as document frequency) times the weight of the document |
| TermScores.FreqScoreByTerms | queries.hpp:510-556 | The score of maxscore_query is the sum, over all positions of the query, of the frequency of the document in the list of that term |
| TermScores.Bm25UnionByTerms | queries.hpp:213-313 | The bag of scores that wand_query and ranked_or_query select from is that of these sums, over the documents in the list of some query term |
| TermScores.FreqUnionByTerms | queries.hpp:491-599 | The same for the frequency sums of maxscore_query |
| TermScores.CountedIsTermSum | queries.hpp:136-150 | Counting repeated terms loses nothing: a sum over (term, count) pairs is the sum over the query, for any gain of a term |
| TermScores.RarerTermGainsMore | bm25.hpp:17-24 | On one index and for an increasing logarithm: of two documents of one length that hold their terms equally often, the one whose term has the shorter list gains at least as much, and strictly more if and only if that list is strictly shorter and its idf is above the floor |
| TermScores.GainOrder | bm25.hpp:11-15 | For one term, documents of one length are ordered by frequency, and documents of one frequency by length, shorter ones first; both if and only if |
| TermScores.Bm25BoundIs | queries.hpp:236-236 | The bound of wand_query is the weight of the largest frequency of the list, not more |
| TopKQueue.Queue.Insert | queries.hpp:157-172 | Keeps the best min(k, n) of the n scores accounted for; returns whether the score entered; the bar never falls |
| TopKQueue.Queue.Skip | queries.hpp:174-177 | A score that would not enter may be left out: the queue still holds the best k of all scores |
| TopKQueue.Queue.CannotEnter | queries.hpp:174-177 | would_enter is false exactly when the queue is full and no kept score is smaller |
| TopKQueue.Queue.Finalize | queries.hpp:179-182 | Sorting the heap gives the best k in descending order |
| TopKQueue.PushHeap | queries.hpp:159-162 | The sifted vector is a heap over the old scores and the new one |
| TopKQueue.PopHeap | queries.hpp:164-166 | Dropping the front leaves a heap over the remaining scores |
| TopKQueue.TopKIsUnique | queries.hpp:184-187 | The result list is determined by k and the bag of scores alone |
| WandData.Data.constructor | wand_data.hpp:17-56 | Each list gets its largest frequency as bound (0 if empty); lengths are divided by their average |
| WandData.NormLensAverageToOne | wand_data.hpp:24-32 | The normalised lengths, times the average, add up to the total length |
| WandData.Bm25BoundDominates | wand_data.hpp:36-45 | The largest raw frequency, times the query weight, dominates every BM25 contribution of the list |
| WandData.FreqBoundDominatesIff | wand_data.hpp:36-45 | For summed frequencies, the bare bound dominates a non-empty list if and only if the term occurs at most once in the query |
| Bm25.DocTermWeightBelowOne | bm25.hpp:11-15 | Between 0 and 1, so never above a frequency >= 1 |
| Bm25.DocTermWeightGrows | bm25.hpp:11-15 | Strictly increasing in the frequency |
| Bm25.DocTermWeightShrinks | bm25.hpp:11-15 | Strictly decreasing in the length of the document |
| Bm25.DocTermWeightIsHalfIff | bm25.hpp:11-15 | One half if and only if the frequency equals k1 * (1 - b + b * norm_len) |
| Bm25.QueryTermWeightPositive | bm25.hpp:17-24 | Positive whatever value the logarithm takes |
| Bm25.RarerWeighsMore | bm25.hpp:17-24 | For an increasing logarithm, the rarer of two terms weighs at least as much, and strictly more if and only if it is strictly rarer and its idf is above the floor |
| Bm25.SingleOccurrenceGain | bm25.hpp:9-24 | In a document of average length a single occurrence gains the larger of idf and its floor |
| Bm25.OddsArePositive | bm25.hpp:20-20 | The logarithm is taken of a positive number, above 1 if and only if fewer than half of the documents hold the term |
| Postings.UnionScoresOfPermutation | queries.hpp:246-252 | The order of the lists does not matter for the bag of document scores |
| Postings.PartialScoreBelowMaxSum | queries.hpp:532-536 | What the first n lists give to a document is at most the sum of their bounds |
| Postings.ScoredEnums.NextGeq | queries.hpp:298-298 | What a query assumes of a posting cursor: the first document at or beyond a bound, if nothing from there on has been passed |
| CursorRefinement.FollowNextGeq | freq_index.hpp:131-136 | A cursor over an index that stands where the cursor of a query stands still does so after both search for a bound |
| CursorRefinement.FollowNext | freq_index.hpp:124-129 | The same for a step |
| CursorRefinement.FollowFreq | freq_index.hpp:150-153 | Both report the same frequency |
| CursorRefinement.SameDocument | freq_index.hpp:145-148 | Both report the same document |
| CursorRefinement.FollowBlockNextGeq | block_posting_list.hpp:124-146 | The cursor over a list in blocks follows too, also past the end, where it forgets its position |
| CursorRefinement.FollowBlockNext | block_posting_list.hpp:110-122 | The same for a step, also off the last posting |
| CursorRefinement.FollowBlockFreq | block_posting_list.hpp:165-171 | Both report the same frequency |
| CursorRefinement.SameBlockDocument | block_posting_list.hpp:160-163 | Both report the same document |
| Traversal.SortByDocid | queries.hpp:246-252 | The enumerators, each once, in the order of their current documents |
| EliasFano.Write | compact_elias_fano.hpp:69-136 | Succeeds exactly on sorted input, and then the bits are an encoding: a high bit at v[i] >> l + i + 1 for each i and no other, every low part in its field, every sampled pointer the true position of its one or zero, nothing before the encoding changed |
| EliasFano.LowPartIsWidest | compact_elias_fano.hpp:27-27 | A width is at most that of the low parts if and only if n * 2^width fits the universe |
| EliasFano.HighPartIsSmall | compact_elias_fano.hpp:31-34 | The high part takes at most 3n + 1 bits, and at least 2n + 2 once low bits are kept |
| EliasFano.SpaceBound | compact_elias_fano.hpp:27-41 | Space of Elias-Fano: besides the sampled pointers at most 3n + 1 + n * l bits, where l is the largest width with n * 2^l <= universe, or 0 if universe <= n; pointers are as few as the sampling says and no wider than any position needs |
| BitVector.CeilLog2IsLeast | util.hpp:30-33 | ceil_log2 is the least number of bits that tell x numbers apart |
| EliasFano.Offsets.Layout | compact_elias_fano.hpp:36-41 | The regions follow one another without overlap |
| EliasFano.Pointer1Inside | compact_elias_fano.hpp:122-125 | A sampled pointer to a one stays inside its region |
| EliasFano.Pointer0Inside | compact_elias_fano.hpp:95-98 | A sampled pointer to a zero stays inside its region |
| EliasFano.LowInside | compact_elias_fano.hpp:116-118 | A low part stays inside its region |
| EliasFano.WritePointers0 | compact_elias_fano.hpp:85-100 | Exactly the pointers to the sampled zeros of one run are added |
| EliasFano.WritePointer1 | compact_elias_fano.hpp:120-126 | The pointer to a sampled one is its true position |
| EliasFano.WriteElement | compact_elias_fano.hpp:105-132 | One element extends high bits, low parts and both kinds of pointers, and touches nothing already written |
| EliasFano.MovedEncoding | partitioned_sequence.hpp:111-118 | A copy of the bits at another position is still an encoding |
| EliasFanoEnumerator.Enumerator.constructor | compact_elias_fano.hpp:146-153 | A cursor over an encoding starts past the end |
| EliasFanoEnumerator.Enumerator.Move | compact_elias_fano.hpp:155-182 | From any position to any position up to n, the value is that of the sequence, or the universe at n |
| EliasFanoEnumerator.Enumerator.SlowMove | compact_elias_fano.hpp:263-289 | The pointer-based path agrees with the same sequence |
| EliasFanoEnumerator.Enumerator.Next | compact_elias_fano.hpp:221-232 | The next element, or the universe after the last one |
| EliasFanoEnumerator.Enumerator.PrevValue | compact_elias_fano.hpp:234-254 | The element before the cursor, or 0 |
| EliasFanoEnumerator.Enumerator.NextGeq | compact_elias_fano.hpp:184-214 | From any position, the first element at least the bound; on the current value the cursor stays. The one exception is characterised: past the end, with a bound above the universe by at most eight high parts, the position runs to n + 1 |
| EliasFanoEnumerator.Enumerator.SlowNextGeq | compact_elias_fano.hpp:291-336 | The pointer-based path finds the first element at least the bound |
| EliasFanoEnumerator.Enumerator.SkipTo | compact_elias_fano.hpp:297-321 | Skipping zeros from the current one or from a sampled pointer lands where all elements behind are below the bound |
| EliasFanoEnumerator.Enumerator.Scan | compact_elias_fano.hpp:196-210 | The reading loop ends on the first element at least the bound |
| EliasFanoEnumerator.SkipZeros | compact_elias_fano.hpp:301-319 | Skipping zeros counts a consumed one as a zero, which makes the two starting points agree |
| EliasFanoEnumerator.ZeroBit | compact_elias_fano.hpp:310-321 | Exactly the elements with a smaller high part lie before the zero of that rank |
| EliasFanoEnumerator.Landed | compact_elias_fano.hpp:319-321 | The position computed from the zero reached is the number of ones before it |
| RankedBitvector.Write | compact_ranked_bitvector.hpp:58-115 | Succeeds exactly on strictly increasing input; a duplicate and a descent are told apart; then the set bits are the elements, every pointer is a true select and every sample a true rank |
| RankedBitvector.WriteSamples | compact_ranked_bitvector.hpp:73-83 | The samples for one stretch of positions all hold the rank reached |
| RankedBitvector.UniverseIsBehind | compact_ranked_bitvector.hpp:98-100 | The bit of a value is inside the vector if and only if the value is below the universe |
| RankedBitvector.SpaceBound | compact_ranked_bitvector.hpp:24-32 | One bit for each number below the universe; as many samples and pointers as the sampling says, none wider than its largest value needs |
| RankedBitvector.SampleInside | compact_ranked_bitvector.hpp:79-81 | A rank sample stays inside its region |
| RankedBitvector.Pointer1Inside | compact_ranked_bitvector.hpp:105-107 | A pointer stays inside its region |
| RankedBitvector.MovedEncoding | partitioned_sequence.hpp:111-118 | A copy of the bits at another position is still an encoding |
| RankedBitvectorEnumerator.Enumerator.Move | compact_ranked_bitvector.hpp:131-158 | From any position to any position up to n, the value of the sequence |
| RankedBitvectorEnumerator.Enumerator.SlowMove | compact_ranked_bitvector.hpp:226-253 | The pointer-based path agrees with the same sequence |
| RankedBitvectorEnumerator.Enumerator.Next | compact_ranked_bitvector.hpp:190-201 | The next element, or the universe |
| RankedBitvectorEnumerator.Enumerator.PrevValue | compact_ranked_bitvector.hpp:208-222 | The element before the cursor, or 0 |
| RankedBitvectorEnumerator.Enumerator.NextGeq | compact_ranked_bitvector.hpp:160-188 | From any position, the first element at least the bound, with the overrun past the end characterised as for Elias-Fano |
| RankedBitvectorEnumerator.Enumerator.SlowNextGeq | compact_ranked_bitvector.hpp:256-302 | Counting bits from the cursor or from a sample gives the rank of the bound, which is the position of the first element at least the bound |
| RankedBitvectorEnumerator.CountBits | compact_ranked_bitvector.hpp:279-293 | The word-by-word population count over masked words is the difference of two ranks, wherever the ends fall in their words |
| RankedBitvectorEnumerator.Enumerator.FollowSample | compact_ranked_bitvector.hpp:273-276 | A stored sample is the number of elements below its position |
| IndexedSequence.Write | indexed_sequence.hpp:42-87 | Appends exactly as many bits as bitsize announces, in a representation from which the sequence can be read back |
| IndexedSequence.MovedEncoding | indexed_sequence.hpp:97-106 | A copy of the bits at another position is still an encoding |
| IndexedSequenceEnumerator.Enumerator.constructor | indexed_sequence.hpp:97-127 | The type bit selects the cursor of the representation that was written |
| IndexedSequenceEnumerator.Enumerator.Move | indexed_sequence.hpp:148-148 | The value of the sequence, whichever representation it is |
| IndexedSequenceEnumerator.Enumerator.Next | indexed_sequence.hpp:150-150 | The next element, whichever representation it is |
| IndexedSequenceEnumerator.Enumerator.NextGeq | indexed_sequence.hpp:149-149 | The first element at least the bound, for every bound up to the universe and, unless all values are present, above it, with the overrun past the end characterised |
| IndexedSequenceEnumerator.Enumerator.PrevValue | indexed_sequence.hpp:152-152 | The element before the cursor, or 0 |
| IndexedSequenceEnumerator.AllPresent | all_ones_sequence.hpp:46-51 | Where every value is present, the first element at least a bound is at the position of that bound, so that nothing needs to be stored |
| IndexedSequence.InputUniverse | indexed_sequence.hpp:24-27 | A strictly increasing sequence is no longer than its universe, and if it is as long, it is 0, 1, 2, ... |
| IntegerCodes.BitEnumerator.ReadGamma | integer_codes.hpp:21-25 | Reads back what write_gamma wrote and stops behind it |
| IntegerCodes.BitEnumerator.ReadDelta | integer_codes.hpp:41-45 | Reads back what write_delta wrote and stops behind it |
| IntegerCodes.WriteDelta | integer_codes.hpp:32-39 | Appends the delta code |
| IntegerCodes.PowerBits | integer_codes.hpp:10-11 | The unary part is l zeros and a one, so that skip_zeros returns l |
| PartitionedSequence.Write | partitioned_sequence.hpp:21-120 | The bits encode the sequence, split at cuts that cost no more than a single partition if they are more than one; if the cost model is monotone, no partition into pieces that some window proposes takes less than what is written or than the single block, and several partitions are such pieces |
| PartitionedSequence.WriteSequences | partitioned_sequence.hpp:69-96 | Every partition is encoded relative to its base; endpoints and upper bounds are those of the partitions |
| PartitionedSequence.WriteMulti | partitioned_sequence.hpp:98-118 | Sizes, bounds, endpoints and sequences stand where the reader looks for them |
| PartitionedSequence.WriteSingle | partitioned_sequence.hpp:44-68 | The single-partition form, including the shortcut for a tight universe |
| PartitionedSequence.CostModelIsExact | partitioned_sequence.hpp:30-34 | The summed window costs of any cuts are the bits of their sequences plus fix_cost per partition: the optimiser minimises what is written |
| PartitionedSequence.ChooseCuts | partitioned_sequence.hpp:34-39 | The cuts strictly increase, end at n, pay off, and are cheapest in the same sense |
| PartitionedSequenceEnumerator.Enumerator.constructor | partitioned_sequence.hpp:130-182 | Opens either form, standing past the end |
| PartitionedSequenceEnumerator.Enumerator.SwitchPartition | partitioned_sequence.hpp:299-326 | Base, limits and inner cursor describe the partition switched to |
| PartitionedSequenceEnumerator.Enumerator.Move | partitioned_sequence.hpp:184-195 | From any position to any position, across partitions, the value of the whole sequence |
| PartitionedSequenceEnumerator.Enumerator.SlowMove | partitioned_sequence.hpp:261-274 | The partition is found through the sizes |
| PartitionedSequenceEnumerator.Enumerator.Next | partitioned_sequence.hpp:208-217 | The next element, across partitions, or the universe |
| PartitionedSequenceEnumerator.Enumerator.SlowNext | partitioned_sequence.hpp:247-259 | Stepping over a partition boundary lands on the first element of the next one |
| PartitionedSequenceEnumerator.Enumerator.PrevValue | partitioned_sequence.hpp:224-231 | The element before the cursor, also at the start of a partition |
| PartitionedSequenceEnumerator.Enumerator.NextGeq | partitioned_sequence.hpp:198-206 | For every bound, below, within or beyond the sequence, the first element at least the bound; the mutual recursion with slow_next_geq ends |
| PartitionedSequenceEnumerator.Enumerator.SlowNextGeq | partitioned_sequence.hpp:276-297 | The partition is found through the upper bounds |
| PartitionedSequenceEnumerator.PartitionOfPosition | partitioned_sequence.hpp:270-271 | The first size above a position names the partition that holds it |
| PartitionedSequenceEnumerator.PartitionOfValue | partitioned_sequence.hpp:286-295 | The first upper bound at least a value names a partition whose range holds it |
| PartitionedSequenceEnumerator.SearchInPart | partitioned_sequence.hpp:200-203 | Searching in the partition is searching in the whole sequence |
| PartitionedSequenceEnumerator.UniverseThroughIntIff | partitioned_sequence.hpp:147-156 | The universe of a single partition survives the int it goes through if and only if it is below 2^31 |
| PartitionedSequenceEnumerator.ReadSingleHeader | partitioned_sequence.hpp:145-156 | Whatever the values span, the universe read is the one that went through the int, so it is right if and only if it is below 2^31 |
| PartitionedSequenceEnumerator.ReadAll | partitioned_sequence.hpp:130-217 | Walking over any encoding gives the sequence; only a single partition must not span 2^31 values |
| PartitionedSequenceEnumerator.RoundTrip | test/test_partitioned_sequence.cpp:1-111 | Writing any strictly increasing sequence and walking over it gives it back, unless a single partition is chosen for a span of 2^31 or more |
| OptimalPartition.OptimalPartition.constructor | optimal_partition.hpp:69-121 | The cuts strictly increase and end at the size; cost_opt is the exact sum of their piece costs and below the single block, or it is the cost of a single block and there is one cut. The sum is at most cost_opt whenever the whole as a piece costs no more than the single block. For monotone costs cost_opt is exactly the least of the single block and all partitions into pieces that some window proposes, every end it passes included, and the cuts are such a partition; the parameters determine the windows |
| OptimalPartition.AccountedIffWholeFits | optimal_partition.hpp:73-75 | Over all parameters, the sum of the piece costs stays within cost_opt if and only if the whole as a piece costs no more than the single block: with eps1 = 1 and eps2 = 0 no window opens and the initial cost is returned |
| OptimalPartition.WholeFits | optimal_partition.hpp:73-73 | A cost that grows with the universe meets that condition if all values are below the universe |
| OptimalPartition.ShortestPaths | optimal_partition.hpp:87-112 | Costs are final when their node is processed; for monotone costs every window has relaxed, at every start, all edges from where it starts looking up to the first end that reaches its bound, and every predecessor is such an edge; at most 2 * size * windows calls of the cost function |
| OptimalPartition.ProposeAll | optimal_partition.hpp:89-111 | The windows share last_end, yet none misses its edges; the calls are paid for by the movement of the windows |
| OptimalPartition.Propose | optimal_partition.hpp:93-110 | A window stops at the first end, from where it starts looking, whose cost reaches its bound; exactly the edges to the ends it passes and to that one are relaxed, and nothing else in the tables changes |
| OptimalPartition.FirstIsOffered | optimal_partition.hpp:93-110 | For monotone costs each window proposes, at every start, the first end that reaches its bound |
| OptimalPartition.BoundsAreSparse | optimal_partition.hpp:93-110 | Hence all partitions whose pieces are first to reach a bound are among those compared |
| OptimalPartition.EndsAscend | optimal_partition.hpp:104-106 | A larger bound is reached no earlier: starting from the end of the previous window skips nothing |
| OptimalPartition.EndsFollow | optimal_partition.hpp:93-95 | For monotone costs the end of a window never has to move back when its start moves on |
| OptimalPartition.CheapestSparse | optimal_partition.hpp:100-103 | Once all edges are relaxed, the cost table is at most the cost of any partition made of such edges |
| OptimalPartition.CutsOf | optimal_partition.hpp:114-120 | Following the predecessors terminates and yields a partition whose summed cost is the table entry |
| OptimalPartition.WindowCost | optimal_partition.hpp:40-48 | In 32-bit arithmetic that wraps around at the start, a window still costs exactly its piece |
| OptimalPartition.Bounds | optimal_partition.hpp:77-85 | The geometric sequence of bounds, up to the first one that reaches the single block or the limit |
| OptimalPartition.WindowBoundsUnique | optimal_partition.hpp:77-85 | The parameters determine the bounds: none is missing and none is added |
| OptimalPartition.BoundsEndIff | optimal_partition.hpp:81-85 | The loop that opens windows terminates if and only if truncation lets the bound grow or it is not entered a second time |
| OptimalPartition.SingleCanBeUnderestimated | optimal_partition.hpp:73-75 | A cost, monotone in the windows but falling as the universe grows, for which every partition costs more than cost_opt |
| OptimalPartition.MonotoneCost | optimal_partition.hpp:99-99 | A cost monotone in universe and size is monotone under window inclusion |
| LowerHull.LambdasComputer.AppendLambdas | optimal_hybrid_index.cpp:94-115 | Appends the labelled lower hull of the candidates behind what other blocks left, and never pops into it |
| LowerHull.OnHullIff | optimal_hybrid_index.cpp:94-115 | A candidate is on the hull, up to others of the same size and time, if and only if some positive price makes it cheapest: collinear points stay |
| LowerHull.SelectedIsOptimal | optimal_hybrid_index.cpp:94-115 | At every price mu >= 0 the last kept point with a label at most mu minimises space + mu * time over all candidates |
| LowerHull.ChainIsMonotone | optimal_hybrid_index.cpp:94-115 | Along the hull, labels never fall and times strictly decrease |
| LowerHull.LaterLabelsPositive | optimal_hybrid_index.cpp:99-111 | Only the first label is 0 |
| LowerHull.LastIsFastest | optimal_hybrid_index.cpp:94-115 | The last hull point is the fastest candidate, and the smallest of the fastest |
| LowerHull.PoppedIsCovered | optimal_hybrid_index.cpp:106-108 | A popped point is at every price strictly dearer than one of its neighbours |
| LowerHull.NeverPopsFirst | optimal_hybrid_index.cpp:107-108 | The pop condition cannot hold when only the first point is left |
| LowerHull.SlopeDecides | optimal_hybrid_index.cpp:106-106 | Below the slope the slower point is cheaper, above it the faster one |
| LowerHull.CheaperTowards | optimal_hybrid_index.cpp:94-115 | Along the hull the cost falls towards the label of a price and rises after it |
| LowerHull.SortPoints | mixed_block.hpp:105-116 | A permutation in the lexicographic order of space and time |
| HybridIndex.PrefixIsOptimal | optimal_hybrid_index.cpp:367-396 | After every prefix that ends with a positive label, or all points, no other choice of one candidate per block is at most as large and strictly faster |
| HybridIndex.Optimize | optimal_hybrid_index.cpp:237-400 | Hulls, a sort that keeps ties in hull order, and the budgeted loop together: the encodings selected cannot be beaten, totals are those of the selection, only the last step can exceed the budget, and the budget holds if and only if the fastest candidates of all blocks together fit it |
| HybridIndex.Select | optimal_hybrid_index.cpp:367-396 | The loop after any sort by label: all of the above if the sort leaves ties in hull order, the totals and the stopping point in any case |
| HybridIndex.FitsIffFastestFits | optimal_hybrid_index.cpp:386-394 | The total is within the budget if and only if the total of the fastest candidates is, a condition on the candidates alone |
| HybridIndex.SpacesGrow | optimal_hybrid_index.cpp:369-378 | Applying further points never makes the total smaller |
| HybridIndex.BudgetCanBeExceeded | optimal_hybrid_index.cpp:392-394 | Candidates and a budget that is exceeded although the smallest encodings are within it |
| HybridIndex.Greedy | optimal_hybrid_index.cpp:357-396 | The running totals are those of the encodings applied last; the loop stops at the first positive label that takes the total over the budget |
| HybridIndex.ChoiceIsOptimal | optimal_hybrid_index.cpp:367-396 | At the price that separates what is applied from the rest, every block has its cheapest candidate |
| HybridIndex.CheaperBlockByBlock | optimal_hybrid_index.cpp:376-378 | Cheaper in every block at one price is cheaper in total |
| HybridIndex.SortByLambda | optimal_hybrid_index.cpp:238-240 | One sort that qualifies: a permutation by label that keeps the hull order of every block |
| HullTies.SafeIffLabelsAscend | optimal_hybrid_index.cpp:238-240 | A block is safe, whatever the other block is and however a sort orders equal labels, if and only if the labels of its hull are all different |
| HullTies.AnyOrderWillDo | optimal_hybrid_index.cpp:238-240 | If no hull has two equal labels, every sort by label leaves the points in hull order, so the selection is optimal with any sort |
| HullTies.OptimizeInSomeOrder | optimal_hybrid_index.cpp:237-400 | The whole selection with a sort that promises nothing about equal labels: if no hull has two of them, the outcome is optimal and within the budget exactly if the fastest candidates are |
| HullTies.EqualLabelsCanLose | optimal_hybrid_index.cpp:238-240 | For every hull with two equal labels there are another block, a legal sort and a budget for which the selection is beaten |
| HullTies.GreedyIsBeaten | optimal_hybrid_index.cpp:367-396 | The loop itself stops there with totals that another choice of candidates beats |
| HullTies.TiesOutOfOrderCanLose | optimal_hybrid_index.cpp:238-240 | An instance: a block with three points on a line |
| HybridIndex.AllHulls | optimal_hybrid_index.cpp:84-126 | Every block contributes its own hull |
| InterpolativeCoding.BitWriter.Write | interpolative_coding.hpp:20-34 | Appends the bits, low bit first, also across a word boundary |
| InterpolativeCoding.BitWriter.WriteInt | interpolative_coding.hpp:40-55 | Appends the truncated binary code |
| InterpolativeCoding.AllTaken | interpolative_coding.hpp:40-55 | The codes of all values below u use up the code space: no code is wasted |
| InterpolativeCoding.BitWriter.WriteInterpolative | interpolative_coding.hpp:57-70 | Appends the interpolative code of a sorted range |
| InterpolativeCoding.WordFilled | interpolative_coding.hpp:25-32 | Filling up a 32-bit word and carrying the rest into the next one is concatenation |
| InterpolativeCoding.BitReader.Read | interpolative_coding.hpp:93-107 | The next bits of the stream, with the position in step, wherever words end |
| InterpolativeCoding.BitReader.ReadInt | interpolative_coding.hpp:109-122 | Reads back a truncated binary code of either length |
| InterpolativeCoding.BitReader.ReadInterpolative | interpolative_coding.hpp:124-146 | Reads back a range in place, leaves the rest of the array alone, and stops at the end of the code |
| InterpolativeCoding.Halves | interpolative_coding.hpp:65-69 | The code of a range is that of its middle value and of two halves that are again sorted ranges |
| InterpolativeCoding.BytesOfBits | interpolative_coding.hpp:93-100 | The words, as little-endian bytes, hold the bits in stream order |
| BlockCodecs.BlockRoundTrip | block_codecs.hpp:107-151 | Decoding the code of a block, followed by arbitrary bytes, gives the block and the length of its code, whether the sum is passed or stored |
| BlockCodecs.Encode | block_codecs.hpp:107-128 | The bytes appended are that code |
| BlockCodecs.Decode | block_codecs.hpp:130-151 | Decodes the block and stops exactly behind its code |
| BlockCodecs.OwnBytesSufficeIff | interpolative_coding.hpp:97-100 | A block can be decoded without any byte behind it if and only if its payload fills whole words |
| BlockCodecs.ShortBlock | block_codecs.hpp:141-143 | A block of two values whose own bytes do not suffice |
| BlockCodecs.IntRoundTrip | interpolative_coding.hpp:40-55 | Truncated binary code, then anything, decodes to the value and what follows |
| BlockCodecs.InterpolativeRoundTrip | interpolative_coding.hpp:57-70 | Interpolative code, then anything, decodes to the range and what follows |
| BlockCodecs.VByteRoundTrip | block_codecs.hpp:28-101 | Variable-byte code, then anything, decodes to the value and the length of its code |
| BlockCodecs.EncodeVByte | block_codecs.hpp:28-76 | The five branches of the encoder all write the same code |
| BlockCodecs.DecodeVByte | block_codecs.hpp:86-101 | Reads back n values and stops behind them |
| BlockCodecs.DifferencesOfSums | block_codecs.hpp:113-146 | Differences undo prefix sums |
| BlockPostingList.Write | block_posting_list.hpp:13-53 | The bytes appended are a list in blocks of the postings, for any self-delimiting codec; nothing before changes |
| BlockPostingList.WriteBlocks | block_posting_list.hpp:55-82 | From blocks in any order that starts with block 0, again a list of the same postings |
| BlockPostingList.InterpolativeIsCodec | block_codecs.hpp:104-152 | The interpolative block keeps the round-trip contract asked of a codec |
| BlockPostingList.GapsTotal | block_posting_list.hpp:45-46 | The sum passed to the codec is that of the gaps of the block |
| BlockPostingList.GapWraps | block_posting_list.hpp:29-39 | Starting from uint32_t(-1), the wrapping difference is the gap, also for the first document |
| BlockPostingList.BlocksAreBlocks | block_posting_list.hpp:31-47 | Every block is a legal input of the codec |
| DocumentEnumerator.Cursor.constructor | block_posting_list.hpp:86-103 | Opens a list at its first posting |
| DocumentEnumerator.Cursor.Next | block_posting_list.hpp:110-122 | The next posting across blocks, or the end |
| DocumentEnumerator.Cursor.NextGeq | block_posting_list.hpp:124-146 | The first document at least the bound, from any state in which none has been passed, also with a bound below the current document or on an exhausted cursor; beyond the last document the cursor reports the universe and its position stays |
| DocumentEnumerator.Cursor.Move | block_posting_list.hpp:148-158 | Moving forward to a position, in the same block or a later one |
| DocumentEnumerator.Cursor.Freq | block_posting_list.hpp:165-171 | The frequency of the current posting, whether or not the block was decoded before |
| DocumentEnumerator.Cursor.DecodeDocsBlock | block_posting_list.hpp:292-319 | The decoded block starts at its first document, wherever it is stored |
| DocumentEnumerator.Cursor.GetBlocks | block_posting_list.hpp:251-284 | The blocks of an in-order list with their codes, sizes and limits |
| DocumentEnumerator.Reorder | test/test_block_posting_list.cpp:83-92 | Copying the blocks in any permutation that keeps block 0 first gives a list with the same documents and frequencies |
| DocumentEnumerator.PermutedSize | block_posting_list.hpp:68-81 | Permuting the blocks keeps their total size |
| DocumentEnumerator.RoundTrip | test/test_block_posting_list.cpp:12-24 | Writing any list with the interpolative codec and walking over it gives documents and frequencies back |
| DocumentEnumerator.SeekEach | test/test_block_posting_list.cpp:26-37 | Starting over and searching for every document finds it with its frequency; searching behind the last one reports the universe, again and again |
| DocumentEnumerator.BlockOf | block_posting_list.hpp:127-139 | The first block whose last document is at least the bound is the one to search |
| StrictEliasFano.Write | strict_elias_fano.hpp:19-36 | Succeeds exactly on strictly increasing input, and then encodes it |
| StrictEliasFano.LoweredSorted | strict_elias_fano.hpp:27-34 | v[i] - i is sorted if and only if v is strictly increasing |
| StrictEliasFano.IncreasingInReach | strict_elias_fano.hpp:24-24 | The lowered values fit the smaller universe |
| StrictEliasFano.LoweredUniverseIsLeast | strict_elias_fano.hpp:25-25 | The universe handed on is the least possible |
| StrictEliasFano.Enumerator.Move | strict_elias_fano.hpp:52-56 | The value of the sequence; at the end, one more than the universe |
| StrictEliasFano.Enumerator.Next | strict_elias_fano.hpp:58-62 | The next element |
| StrictEliasFano.Enumerator.PrevValue | strict_elias_fano.hpp:69-76 | The element before the cursor, or 0 |
| PositiveSequence.Write | positive_sequence.hpp:15-31 | The prefix sums are strictly increasing and are what is encoded |
| PositiveSequence.Enumerator.Move | positive_sequence.hpp:48-66 | The element at the position, whatever was asked for before: the cached sum is used only when it is that of the predecessor |
| PositiveSequence.SumsIncrease | positive_sequence.hpp:15-31 | Prefix sums of positive numbers strictly increase |
| FreqIndex.RoundTrip | verify_collection.hpp:9-54 | Building an index from any non-empty lists and walking over each of them gives the collection back |
| FreqIndex.FreqIndex.At | freq_index.hpp:192-214 | Opens the i-th of many lists out of the concatenated bit vectors |
| FreqIndex.Builder.AddPostingList | freq_index.hpp:28-40 | A list, prepared and committed, is appended to the index; an empty one is refused |
| FreqIndex.Prepare | freq_index.hpp:68-82 | The two bit vectors of a list hold its header, documents and frequencies and nothing else |
| FreqIndex.Builder.Build | freq_index.hpp:42-50 | The index holds all lists committed, in order |
| QueuedIndex.Build | freq_index.hpp:42-50 | Through the work queue, the index holds the first lists submitted, those committed when complete() returns; these are all lists if and only if jobs were pending or none was running |
| QueuedIndex.AllIndexedIff | freq_index.hpp:39-50 | After any run that submits the lists, all of them are in the index if and only if there are no threads or the postings of the lists pending when the last one is submitted, and its own, are fewer than half of the work per thread |
| QueuedIndex.BuildCommitted | freq_index.hpp:84-88 | The commits reach the builder in submission order |
| FreqIndex.CollectionBuilder.Append | bitvector_collection.hpp:23-27 | The parts are kept apart by their starts |
| FreqIndex.CollectionBuilder.Build | bitvector_collection.hpp:29-39 | The starts, without the last endpoint, fit an Elias-Fano sequence |
| FreqIndex.Collection.Get | bitvector_collection.hpp:57-67 | Where the i-th part stands |
| FreqIndex.OneMorePart | bitvector_collection.hpp:23-27 | Appending moves no earlier part |
| FreqIndex.DocumentEnumerator.Next | freq_index.hpp:124-129 | The next posting, or the end |
| FreqIndex.DocumentEnumerator.NextGeq | freq_index.hpp:131-136 | The first document at least the bound, for every bound but those that make the Elias-Fano cursor overrun past the end, where it reports the number of documents |
| FreqIndex.DocumentEnumerator.Move | freq_index.hpp:138-143 | Any position, forwards or backwards |
| FreqIndex.DocumentEnumerator.Freq | freq_index.hpp:150-153 | The frequency of the current posting |
| SemiasyncQueue.QueueSafety | semiasync_queue.hpp:32-87 | In every state that any interleaving can reach: committed, running and pending jobs, in this order, are the jobs in submission order; commits follow it; every job is prepared at most once, and before its commit; never more batches than threads, and only with as many is a batch waited for before the next one starts |
| SemiasyncQueue.StepKeepsInvariant | semiasync_queue.hpp:32-87 | Every step of the main thread or of a worker keeps the invariant behind this |
| SemiasyncQueue.CompleteOutcome | semiasync_queue.hpp:47-55 | When complete() returns, everything submitted is committed if and only if jobs were pending or nothing was running when it was called |
| SemiasyncQueue.WorkAddsUp | semiasync_queue.hpp:36-38 | In every state that any run reaches, m_expected_work is the sum of the works of the pending jobs, each rounded down |
| SemiasyncQueue.LaunchesIff | semiasync_queue.hpp:37-38 | After any run, add_job starts a thread if and only if there are threads and the work of the pending jobs together with the new one reaches the work per thread |
| SemiasyncQueue.CompleteAfterAdd | semiasync_queue.hpp:32-55 | After any run, one more add_job and then complete(): everything is committed if and only if that job did not fill a batch, under any scheduling |
| SemiasyncQueue.LastBatchIsLost | semiasync_queue.hpp:36-55 | That side is reached: after one job that fills a batch, complete() returns with nothing committed, under any scheduling |
| SemiasyncQueue.SmallJobsOnlyWait | semiasync_queue.hpp:34-39 | In every run that submits only jobs with less than one unit of work, no thread starts before complete(): m_expected_work is a size_t and each sum is truncated |
| SemiasyncQueue.NothingLeft | semiasync_queue.hpp:47-55 | Between calls, everything is committed if and only if nothing is pending or running |
| SemiasyncQueue.NoDeadlock | semiasync_queue.hpp:59-87 | While a call is under way, the main thread or the first worker can take a step |
| SemiasyncQueue.StepsDecrease | semiasync_queue.hpp:59-87 | Every step during a call uses up work |
| SemiasyncQueue.CallsAreShort | semiasync_queue.hpp:32-87 | Hence every call returns, after a bounded number of steps, under any scheduling |
| OneBits.SkipOnes | compact_elias_fano.hpp:285-287 | What skip does on a region whose ones are known: it lands before the k-th next one |
| OneBits.PreviousOne | compact_elias_fano.hpp:240-246 | predecessor1 from just before a one finds the one before it |

## Left out

- MaxScore.Query: on which indexes a query with a repeated term still happens to be answered exactly is not characterised, except that for k = 1 the search ends with a first score that reaches all bounds.
- OptimalPartition.OptimalPartition.constructor: no (1 + eps1)(1 + eps2) factor against all partitions; a window that starts where it stopped at the node before proposes no end below its bound there, so the factor does not follow from the edges proposed. Monotone costs are a hypothesis.
- HybridIndex.SortByLambda: keeps ties in hull order, which `stxxl::sort` does not promise; HybridIndex.Select and HullTies cover any sort.
- HybridIndex.Greedy: the trade-off log for budget 0, which prints every (num_blocks / 2000)-th point, is not modelled. Block spaces are 16 bits wide like the sizes of the points they are taken from, so storing them loses nothing.
- HybridIndex.Optimize: takes ties in hull order, through HybridIndex.SortByLambda; HullTies.OptimizeInSomeOrder does not.
- EliasFanoEnumerator.Enumerator.NextGeq: after an overrun past the end nothing is promised about later calls.
- IndexedSequenceEnumerator.Enumerator.NextGeq: where all values are present, for bounds up to the universe, as the all-ones cursor asserts.
- RankedBitvector.Write: for values below the universe; the assertion in the code also admits the universe, whose bit lies behind the vector.
- StrictEliasFano.Write: asks for values that are at least their index, where the subtraction would otherwise wrap around.
- PositiveSequence.Write: the iterator that forms the prefix sums also reads one element behind the last; that read is not modelled.
- SemiasyncQueue.QueueSafety: the queue is a step system and not a class, since its point is the interleaving; jobs are numbers and what they do is not modelled.
- FreqIndex.RoundTrip: for ef_index and at least one list, with every list committed; QueuedIndex.Build says which lists are. The other index types are not instantiated.
- FreqIndex.Builder.AddPostingList: a list is prepared and committed at once; SemiasyncQueue and QueuedIndex cover the way through the queue.
- FreqIndex.Builder.Build: without the call of `complete`, which QueuedIndex.Build adds.
- Bm25.QueryTermWeightPositive: the logarithm is an arbitrary function of the reals; only Bm25.RarerWeighsMore and TermScores.RarerTermGainsMore ask that it increases.
- Floating point: rounding of scores, prices and times is not modelled.
- Integer widths: sizes, offsets and positions are unbounded except where listed above, and `get_word56` is a field of any width.
- Sorting, heaps: `std::sort`, `push_heap`, `pop_heap` and `sort_heap` are modelled by simple algorithms with the same result.
- `succinct`, `stxxl`: only the primitives used are specified (bit vector builder, unary enumerator, ranks); prefetching and memory mapping are left out.
- Query cursors: queries run over the cursors of ScoredEnums. CursorRefinement shows for every call that a cursor over an index or a list in blocks follows them; the query operators are not run over those objects. The assertion in the block cursor, that a bound is not below the current document, is narrower than what maxscore_query relies on.
- Threads: the memory model of `std::thread`; a worker step prepares one job, and joining waits for a whole batch.
- uniform_partitioned_sequence.hpp: the fixed-size variant of the partitioned sequence, whose cursor repeats the one modelled.
- strict_sequence.hpp: the same choice of representation as indexed_sequence.hpp over strict Elias-Fano.
- maxscore_dyn_query: its bounds are literal vectors unrelated to the data.
- FastPFor, varint_G8IU and mixed blocks: any self-delimiting codec is covered by the codec contract; these encoders are not part of this model.
- heuristic_greedy: without popping, the points are no hull and nothing is claimed.
- Prediction of decoding times, profiling, collection files, command lines, logging: easy or outside the program's logic.
