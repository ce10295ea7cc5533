# Verified models of llama.cpp's converters, chat parser, base64 codec and legacy loader

Dafny models of six pieces of the repository whose correctness is more than a table or a library
call, with the properties they exist for proved for all inputs. `dafny verify dfyconfig.toml`
checks the whole project.

* **Low-rank pairs** (`Tensors`, `Lora`, `LoraIndexing`, `LoraBatches`, `LoraLeads`, `TensorEntries`,
  `LoraAccepts`). A LoRA adapter's tensor is a pair (A, B) standing for the product B·A. The converter
  pushes the pair through the code that was written for the product: reshape, permute, transpose, tuple
  indexing, stack and cat. Tensors are a shape and row-major data of any rank. The main theorem is a
  homomorphism over whole runs of operations: converting the pair and multiplying out is multiplying out
  and converting. Where the pair accepts an operation that means something else on the product (two
  inferred extents, a permute dimension out of range, an inner ellipsis, an integer on the last axis,
  several lists), the operation is kept as the code has it and the exact condition under which the two
  agree is proved; for index tuples it is that both readings select the same positions, over all pairs
  of a shape, and where A has batches of its own, that these are left in place. Which entry of a tensor
  each operation puts where is told with positions written out, and exactly when the pair accepts an
  operation.
* **Weight layouts** (`Layouts`, `Falcon`, `Plamo`, `Nibbles`). The RoPE head permute, Falcon's QKV
  regroup, PLaMo's grouped-query shuffles and the MXFP4 nibble repack, each as the sequence of tensor
  operations the converter performs. Proved: which row or byte goes where, that nothing is lost, and
  that the network computes the same (attention scores, attention output, decoded values); for the RoPE
  permute and the Falcon regroup also that a low-rank pair goes through the same code.
* **Byte-pair merges and expert merging** (`Bpe`, `Experts`, `ExpertResults`). The greedy merge loop
  bounded by a rank, the reconstruction of a merge list from it, and the accumulator that holds expert
  tensors back until a layer is complete, over all arrival orders, and on any arrival whatever its name
  and layer.
* **Streaming chat messages** (`Strings`, `ChatParser`, `ChatStreaming`, `ChatFinal`, `ChatMessage`,
  `ChatResults`, `JsonCleanup`, `JsonPaths`, `JsonResults`). The cursor, literal search on truncated
  text, extraction of reasoning sections, and the recursive cleaner of healed JSON, whose path is one
  shared variable. Proved: text once shown is never retracted, neither by the reasoning parser nor in
  the whole message, when a final read is as safe, when the section loop ends, that what is shown is a
  segmentation of what was consumed, exactly when the shared path is as good as an exact one, and that
  the marker then does not survive the cleaning, neither in strings nor, as it is dumped, in dumped
  texts; and which text becomes reasoning, content, arguments.
* **base64** (`Base64`, `Base64Text`). The codec of RFC 4648, sections 4 and 5, with its bit carry, its
  alphabet latch and decoding into the buffer being read. The specification regroups bit strings; its
  alphabets and padding are compared with the letters of the standard.
* **Legacy GGML files** (`GgmlFormat`, `GgmlScan`, `GgmlLoader`, `GgmlRoundTrip`, `GgmlTiling`,
  `GgmlLayout`). The loader of the three old formats with its 64-bit offsets, which a wrapped byte count
  may lead back or below zero; a writer for them and the two inverses; exactly when the scan ends, when
  the tensors tile the file, when the file is complete by the computed and by the true counts, and which
  cuts go unnoticed.

Imperative code is modelled imperatively: the merge loop, the expert accumulator, the parser object,
the JSON cleaner, the codec's loops (in place on an array) and the loader's objects are methods and
classes, each proved against a function over which the theorems are then stated. The LoRA pair and the
layout transformations are expressions in the original and are functions here.

## Where code and intent part

* `[..., x]` on a pair inserts as many slices as the tuple has other entries, not as many as the rank
  asks for (`Lora.InnerEllipsisAgrees` says when the tuple is expanded as the dense reading expands it).
  A tuple may be expanded differently and still select the same, as `[..., 0:]` does at rank three;
  `LoraIndexing.IndexExact` is about what is selected. A tuple that is only an ellipsis is an error
  (`Lora.TrailingEllipsisAgrees`).
* Several lists in a tuple are read together by a dense index, but apart by the pair, where it accepts
  them; the result then always has another rank (`LoraIndexing.SeveralListsDiffer`), as with an integer on
  the last axis (`LoraIndexing.TrailingIntegerDiffers`).
* A slice or list on a batch axis is taken of B alone. If A has that axis too, the result multiplies out
  only if as many batches remain, and a list that reorders them is ignored on A's side
  (`LoraLeads.BatchedIndexStep`, `LoraLeads.BatchedIndexExact`).
* Concatenating batched pairs whose A is broadcast over several batches gives a pair that does not
  multiply out (`LoraBatches.CatBroadcastRefused`); `LoraBatches.CatBatches` says exactly when it does.
* A final read with reasoning kept inline shows a closing tag, and with it the end of a section, that a
  longer text takes back (`ChatStreaming.FinalInlineReadRetracts`). It is safe exactly when its last
  section is not left open (`ChatFinal.FinalInlineSafeIff`). No caller in the repository reads on after
  a final read: the server's reads are partial until generation has stopped
  (tools/server/server.cpp:1921-1923).
* A message of spaces alone, where reasoning may still begin, is taken back when a start tag begins to
  arrive (`ChatMessage.MessageStaysIff`). Such a read shows nothing at all, and the server passes over
  empty messages (tools/server/server.cpp:1925); apart from these nothing is ever taken back
  (`ChatMessage.MessageNeverRetracts`).
* A partial literal behind the cursor is missed when an earlier beginning of it straddles the cursor
  (`ChatStreaming.PartialLiteralSeenIff`, `ChatStreaming.StraddlingLiteralMissed`).
* With two empty tags the reasoning loop does not end, unless only spaces are left
  (`ChatStreaming.LoopEndsIff`).
* A complete JSON root on a content path is cut to the empty string and called partial, because the
  empty marker is found at its start; no other complete value is called partial
  (`JsonCleanup.CompleteReportedPartialIff`).
* A key that a healed string leaves on the shared path misleads the cleaner when a sibling is still
  processed behind it. The parser gives a repeated key its first slot, so the text
  `{"a":0,"c":[],"a":{"b":"x` leads there (`JsonPaths.RepeatedKeyMisleads`). `JsonPaths.SharedPathExact`
  gives the exact condition; the rightmost spine, where a text without repeated keys is healed,
  satisfies it (`JsonCleanup.SpineIsAligned`).
* The byte count of a legacy tensor wraps around 64 bits, so the offset behind it may lie before its own
  header. The scan then reads on from there. It may come back to an offset and never end
  (`GgmlScan.EndlessIff`, `GgmlTiling.StandsStill`), or end, and then the file loads though its tensors
  do not lie in order (`GgmlTiling.LoadedOutOfOrder`, `GgmlTiling.LoadedFileTilesIff`). A count that wraps
  to a smaller one that is not negative goes unnoticed (`GgmlTiling.CountVanishes`); what that leaves of
  completeness says `GgmlTiling.TrulyCompleteIff`. A file cut behind its headers loads as if whole
  (`GgmlTiling.CutFileLoadsAlike`).

## Model

| member | source | states |
|---|---|---|
| Lora.MakeLora | llama.cpp/convert_lora_to_gguf.py:46-54 | a pair is only ever made of two tensors of equal rank, at least two, that share the inner extent |
| Lora.ReshapeStep | llama.cpp/convert_lora_to_gguf.py:131-155 | every reshape the pair accepts multiplies out to the same reshape of the product iff at most one extent is inferred and, for a pair of inner extent zero, the shape fits the product; A stays unbatched |
| Lora.PermuteStep | llama.cpp/convert_lora_to_gguf.py:163-174 | every permute the pair accepts is that permute of the product iff its dimensions are in range |
| Lora.TransposeStep | llama.cpp/convert_lora_to_gguf.py:176-183 | every transpose or swapaxes the pair accepts is that of the product |
| Lora.SwapFactorsStep | llama.cpp/convert_lora_to_gguf.py:170-171 | swapping the transposed factors transposes the product |
| Lora.IndexStep | llama.cpp/convert_lora_to_gguf.py:78-113 | a tuple index whose two readings select the same positions selects the same entries of the product, A's batch axes staying trivial |
| Lora.StepHomomorphism | llama.cpp/convert_lora_to_gguf.py:131-183 | one supported operation on the pair is that operation on the product |
| Lora.Homomorphism | llama.cpp/convert_lora_to_gguf.py:78-183 | for every run of supported operations, all shapes and ranks, multiplying out the converted pair is converting the product |
| Lora.InnerEllipsisAgrees | llama.cpp/convert_lora_to_gguf.py:82-97 | with items behind its one ellipsis, a tuple is expanded to the very entries of the dense reading iff the named items fill half the axes, or fewer and only full slices follow |
| Lora.TrailingEllipsisAgrees | llama.cpp/convert_lora_to_gguf.py:80-81 | a trailing ellipsis is read as the dense reading reads it iff something else is named |
| LoraIndexing.TrailingIntegerDiffers | llama.cpp/convert_lora_to_gguf.py:99-113 | an integer on the last axis always leaves the pair one axis more than the dense result, A batched or not, however the dense index reads the tuple |
| LoraIndexing.SeveralListsDiffer | llama.cpp/convert_lora_to_gguf.py:97-113 | so do several lists, which a dense index broadcasts against each other |
| LoraIndexing.IndexExact | llama.cpp/convert_lora_to_gguf.py:78-113 | every accepted index tuple multiplies out to the dense index for every pair of a shape with positive inner extent iff its two readings select the same positions, whatever its ellipses, integers and lists |
| LoraBatches.GetStep | llama.cpp/convert_lora_to_gguf.py:68-77 | a single integer or slice leaves a pair that multiplies out iff the batches of A and B still match, and then it is the same index of the product |
| LoraLeads.BatchedIndexStep | llama.cpp/convert_lora_to_gguf.py:78-113 | an accepted tuple of a pair whose A may be batched leaves a pair that multiplies out iff each remaining batch extent of A is one or B's; without lists on batch axes, or if these leave A's batches in place, it is the selection of the product, and its dense index if both readings are alike |
| LoraLeads.BatchedIndexExact | llama.cpp/convert_lora_to_gguf.py:78-113 | for every pair of a shape with positive inner extent it is the selection of the product iff batch extents match and no list reorders an axis that A has too, or nothing is selected |
| LoraBatches.SubProduct | llama.cpp/convert_lora_to_gguf.py:41-54 | each batch of the product is the product of that batch, a broadcast A being read at 0 |
| LoraBatches.StackStep | llama.cpp/convert_lora_to_gguf.py:199-206 | stacking pairs is stacking their products |
| LoraBatches.CatMatrices | llama.cpp/convert_lora_to_gguf.py:216-220 | concatenating B over one shared A concatenates the rows of the products and keeps A |
| LoraBatches.CatFormedIff | llama.cpp/convert_lora_to_gguf.py:211-215 | concatenated batched pairs multiply out iff the summed batch extent of the As is 1 or that of the Bs |
| LoraBatches.CatBatches | llama.cpp/convert_lora_to_gguf.py:211-215 | where each A is batched like its B, or there is one pair, the result is the concatenation of the products; unless some B is empty, it multiplies out only there |
| LoraBatches.CatBroadcastRefused | llama.cpp/convert_lora_to_gguf.py:211-215 | two pairs with A broadcast over several batches are concatenated to one that does not multiply out |
| TensorEntries.IndexEntry | llama.cpp/convert_lora_to_gguf.py:78-113 | indexing by a tuple with at most one list succeeds iff every axis accepts its item; an integer drops its axis, every other axis has as many positions as its item, and each entry is the one at the positions the items name |
| TensorEntries.IntegerEntry | llama.cpp/convert_lora_to_gguf.py:99-113 | an integer i on one axis, all others whole, gives the entries at i there, or at i plus the extent if i is negative |
| TensorEntries.SliceEntry | llama.cpp/convert_lora_to_gguf.py:99-113 | a slice on one axis gives the entries at lo, lo + step and so on, below hi, its bounds counted from the end if negative and cut to the axis |
| TensorEntries.IndexFirstEntry | llama.cpp/convert_lora_to_gguf.py:68-77 | a single integer, slice or list concerns the first axis, and reads these same positions there |
| TensorEntries.SeveralListsEntry | llama.cpp/convert_lora_to_gguf.py:97-113 | several lists are read at one common coordinate, which stands in their place if no slice separates them and in front otherwise; it succeeds iff the items are accepted and the lists have one length or length one |
| TensorEntries.PermuteEntry | llama.cpp/convert_lora_to_gguf.py:163-174 | a permute succeeds iff its dimensions name every axis once, and puts the entry with coordinate c on axis dims[i] where axis i has coordinate c |
| TensorEntries.TransposeEntry | llama.cpp/convert_lora_to_gguf.py:176-183 | a transpose puts each entry where the two coordinates are swapped, and fails iff a dimension is out of range |
| TensorEntries.ReshapeEntry | llama.cpp/convert_lora_to_gguf.py:131-155 | a reshape succeeds iff some shape as requested has the count of entries, with at most one extent inferred and that next to no zero, and keeps the entries in their order |
| TensorEntries.StackEntry | llama.cpp/convert_lora_to_gguf.py:199-206 | entry idx of the i-th stacked tensor is entry [i] + idx of the stack |
| TensorEntries.CatEntry | llama.cpp/convert_lora_to_gguf.py:207-220 | rows of concatenated tensors stand behind all rows of the tensors before |
| TensorEntries.ProductEntry | llama.cpp/convert_lora_to_gguf.py:41-54 | an entry of the product is a row of B times a column of A, batch axes of A of extent one being read at 0 |
| TensorEntries.ProductOfTwo | llama.cpp/convert_lora_to_gguf.py:41-54 | written out for a matrix pair of inner extent two |
| TensorEntries.DenseExpanded | llama.cpp/convert_lora_to_gguf.py:78-97 | where a dense index puts full slices for axes that are not named, with and without an ellipsis |
| TensorEntries.PairExpanded | llama.cpp/convert_lora_to_gguf.py:79-97 | and where the pair puts them |
| LoraAccepts.ReshapeAccepted | llama.cpp/convert_lora_to_gguf.py:131-155 | the pair accepts a reshape iff it names two extents, keeps the last, fits the rows of B, and A has as many entries as a matrix |
| LoraAccepts.Expanded | llama.cpp/convert_lora_to_gguf.py:140-145 | every extent of -1 becomes the count over the product of the others, which must divide it |
| LoraAccepts.PermuteAccepted | llama.cpp/convert_lora_to_gguf.py:163-174 | the pair accepts a permute iff every axis is named once, and the last stays last with A not batched, or the two axes of a matrix are swapped |
| LoraAccepts.PermuteRefused | llama.cpp/convert_lora_to_gguf.py:163-174 | what kind of error a refused permute is |
| LoraAccepts.TransposeAccepted | llama.cpp/convert_lora_to_gguf.py:176-183 | the pair accepts a transpose iff both dimensions are in range and it leaves the last axis in place with A not batched, or it is a matrix |
| LoraAccepts.IndexAccepted | llama.cpp/convert_lora_to_gguf.py:78-113 | without several lists and with an integer on at most one of the last two axes, the pair accepts a tuple iff these two are no integers, A has a position for every integer on a batch axis and the factors accept their items |
| LoraAccepts.GetAccepted | llama.cpp/convert_lora_to_gguf.py:68-77 | the pair accepts a single item iff both factors do, or B alone of a matrix pair and it is no integer |
| LoraAccepts.StackAccepted | llama.cpp/convert_lora_to_gguf.py:199-206 | pairs are stacked iff there are some and their factors have the same shapes |
| LoraAccepts.CatAccepted | llama.cpp/convert_lora_to_gguf.py:207-222 | pairs are concatenated iff there are some, their Bs agree behind the first axis, and their As do or, of matrix pairs, are equal |
| Layouts.RopeRow | llama.cpp/convert_hf_to_gguf.py:2150-2156 | the permute succeeds and moves row h*d + j*d/2 + i to row h*d + 2i + j, for every head count, even d and trailing shape |
| Layouts.RopeRowMoved | llama.cpp/convert_hf_to_gguf.py:2150-2156 | read backwards: output row r is input row RopeSource(r) |
| Layouts.RopeBijection | llama.cpp/convert_hf_to_gguf.py:2150-2156 | the row map is a bijection on the rows of any number of heads |
| Layouts.RopePair | llama.cpp/convert_hf_to_gguf.py:2150-2156 | the permute accepts every low-rank matrix pair, leaves A as it is and multiplies out to the permuted product |
| Layouts.RotationCommutes | llama.cpp/convert_hf_to_gguf.py:2150-2156 | rotating half-split pairs and then permuting is permuting and then rotating adjacent pairs |
| Layouts.DotPermuted | llama.cpp/convert_hf_to_gguf.py:2150-2156 | permuting both vectors of a head keeps their dot product |
| Layouts.PermutedHead | llama.cpp/convert_hf_to_gguf.py:2150-2156 | each head's output of the permuted weight is the permuted output of that head |
| Layouts.RopeKeepsScores | llama.cpp/convert_hf_to_gguf.py:2190-2194 | every query-key score under adjacent-pair rotation of the converted weights is the score under half-split rotation of the originals, also when keys use the KV head count |
| Falcon.SlotBijection | llama.cpp/convert_hf_to_gguf.py:1836-1840 | every head slot of the fused weight is used exactly once and lands in its own third |
| Falcon.RegroupRow | llama.cpp/convert_hf_to_gguf.py:1831-1840 | the regroup succeeds on every fused weight and moves each row of slot s, in order, to slot SlotTarget(s): all query heads, then all key heads, then all value heads |
| Falcon.PairPartStep | llama.cpp/convert_hf_to_gguf.py:1836-1839 | view, slot selection and reshape of a low-rank pair leave A as it is and multiply out to the same part of the product |
| Falcon.RegroupPairStep | llama.cpp/convert_hf_to_gguf.py:1836-1840 | the whole regroup of a low-rank pair succeeds, leaves A as it is and multiplies out to the dense regroup of the product |
| Plamo.QueryRow | llama.cpp/convert_hf_to_gguf.py:4140-4145 | query row e of head g*b + k moves to row e of head k*a + g, for any sizes |
| Plamo.OutputColumn | llama.cpp/convert_hf_to_gguf.py:4147-4152 | output-projection columns move exactly as the query rows do |
| Plamo.ShuffleKeepsOutput | llama.cpp/convert_hf_to_gguf.py:4159-4163 | for any per-head function, moved heads under KV index h div a give the sum that unmoved heads give under h mod b |
| Plamo.ConversionKeepsAttention | llama.cpp/convert_hf_to_gguf.py:4140-4165 | both shuffles succeed and the converted weights compute the checkpoint's attention output, every output, every input, any sizes |
| Plamo.PlamoKeepsAttention | llama.cpp/convert_hf_to_gguf.py:4140-4165 | the same at the converter's own sizes, 8 groups of 5 heads of 128 |
| Plamo.OneMoreHead | llama.cpp/convert_hf_to_gguf.py:4159-4163 | the two outputs compared are sums over heads, the checkpoint's with KV head h mod b, the runtime's with h div a |
| Plamo.OtherShapesRefused | llama.cpp/convert_hf_to_gguf.py:4140-4149 | a weight of any shape but 5120 by 5120 violates the assertions |
| Nibbles.OutputByte | llama.cpp/convert_hf_to_gguf.py:8816-8836 | which input nibbles each output byte of each block is made of |
| Nibbles.PreservesValues | llama.cpp/convert_hf_to_gguf.py:8813-8836 | in every block the 32 values, read in the new order, are the 32 values read in the old one |
| Nibbles.RestoreTransform | llama.cpp/convert_hf_to_gguf.py:8813-8836 | the repack can be undone |
| Nibbles.TransformRestore | llama.cpp/convert_hf_to_gguf.py:8813-8836 | and reaches every packed tensor: it is a bijection |
| Bpe.BestPair | llama.cpp/convert_hf_to_gguf.py:3006-3012 | the leftmost of the lowest-ranked adjacent pairs, or none if none is ranked |
| Bpe.FindBest | llama.cpp/convert_hf_to_gguf.py:3006-3012 | the inner loop finds that pair and its rank |
| Bpe.BpeLoop | llama.cpp/convert_hf_to_gguf.py:3003-3017 | the loop terminates with the parts of the specified run |
| Bpe.BpeKeeps | llama.cpp/convert_hf_to_gguf.py:3004-3017 | the parts concatenate to the token, longer parts are keys ranked below the bound, and no adjacent pair is ranked below it |
| Bpe.LargerBoundExtends | llama.cpp/convert_hf_to_gguf.py:3013-3016 | a run with a larger bound, or none, continues the run with the smaller one |
| Bpe.OwnRankLeavesTwo | llama.cpp/convert_hf_to_gguf.py:955-956 | bounded by its own rank, a token of at least two bytes keeps at least two parts |
| Bpe.TwoPartsIffReassembled | llama.cpp/convert_hf_to_gguf.py:955-956 | with injective ranks there are exactly two parts iff raising the bound by one reassembles the token |
| Bpe.ReconstructMerges | llama.cpp/convert_hf_to_gguf.py:948-957 | the merge list is completed iff every entry but single bytes has two parts, is then those parts in order, and otherwise stops at the first entry that has not |
| Bpe.MergesRebuildTokens | llama.cpp/convert_hf_to_gguf.py:955-957 | each recorded merge joins two allowed parts into its token |
| Bpe.MergesListTokens | llama.cpp/convert_hf_to_gguf.py:951-957 | the recorded merges, each joined, are the entries that are not single bytes, in the order of the vocabulary |
| Bpe.ReconstructionCondition | llama.cpp/convert_hf_to_gguf.py:951-957 | the assertion holds for a whole vocabulary with distinct tokens and ranks iff every entry but single bytes is reassembled under the next bound |
| Experts.ExpertMerger.TakeExperts | llama.cpp/convert_hf_to_gguf.py:2212-2217 | takes the experts of one matrix out of the layer in order, or stops where one is missing |
| Experts.ExpertMerger.EmitLayer | llama.cpp/convert_hf_to_gguf.py:2208-2226 | emits the three stacks and leaves the layer as the specification says, also where an expert is missing or there is none to stack |
| Experts.ExpertMerger.ModifyTensors | llama.cpp/convert_hf_to_gguf.py:2196-2228 | the whole state after one arrival and what it returns, for any name, layer index and earlier state |
| Experts.ExpertMerger.PrepareTensors | llama.cpp/convert_hf_to_gguf.py:2262-2269 | the final check fails iff some layer still holds a tensor |
| ExpertResults.ArrivalInside | llama.cpp/convert_hf_to_gguf.py:2196-2228 | any arrival is held under its name in its own block, counted from the end if negative; with three tensors per expert held the three stacks are made and their parts let go, or the first missing expert, matrix by matrix, stops that with all before it gone |
| ExpertResults.ArrivalOutside | llama.cpp/convert_hf_to_gguf.py:2205 | a block number out of range from either end changes nothing |
| Experts.PendingComplete | llama.cpp/convert_hf_to_gguf.py:2205-2207 | in every run of distinct expert tensors a layer has received as many as are pending, at most three per expert, and with that many it has all names |
| Experts.HeldIsPending | llama.cpp/convert_hf_to_gguf.py:2202-2217 | after every run a layer holds exactly its arrivals, or nothing once complete |
| Experts.ArrivalReturns | llama.cpp/convert_hf_to_gguf.py:2196-2228 | an arrival never fails, returns nothing before its layer is complete, and then three stacks whose slot x is expert x |
| Experts.EmittedExactlyOnce | llama.cpp/convert_hf_to_gguf.py:2207-2226 | a complete layer emits at one arrival only, its last |
| Experts.FinalCheck | llama.cpp/convert_hf_to_gguf.py:2262-2269 | a tensor is left over iff some layer was started and not completed |
| Experts.ConvertAll | llama.cpp/convert_hf_to_gguf.py:2160-2269 | the accumulator over a whole run returns what the specification returns at each arrival, and its final check fails iff some layer is unfinished |
| Strings.PartialStop | llama.cpp/common/common.cpp:467-481 | the earliest start of a suffix that is a non-empty prefix of the stop string, or none if there is none |
| ChatResults.CutOffIs | llama.cpp/common/common.cpp:467-481 | it is the longest end of the text that is a prefix of the stop string and not empty |
| Strings.StripGrows | llama.cpp/common/common.cpp:410-420 | stripping a longer text extends the stripped shorter one |
| Strings.FindStays | llama.cpp/common/chat-parser.cpp:142-147 | a first occurrence stays the first when more text arrives |
| Strings.PartialInShorter | llama.cpp/common/chat-parser.cpp:151-153 | whatever begins the pattern at the end of a longer text, or lies beyond the shorter, begins it at the end of the shorter |
| ChatParser.Parser.MoveTo | llama.cpp/common/chat-parser.h:36-41 | moves to any position up to the end and refuses others without moving |
| ChatParser.Parser.MoveBack | llama.cpp/common/chat-parser.h:42-47 | moves back by at most the position and refuses more without moving |
| ChatParser.Parser.ConsumeSpaces | llama.cpp/common/chat-parser.cpp:116-124 | ends behind the spaces at the cursor and says whether there were any |
| ChatParser.Parser.TryConsumeLiteral | llama.cpp/common/chat-parser.cpp:126-139 | consumes the literal iff it is at the cursor, and otherwise stays |
| ChatParser.Parser.TryFindLiteral | llama.cpp/common/chat-parser.cpp:141-163 | the first occurrence, or on partial text a beginning of it at the end, with the text before it and the cursor behind it |
| ChatParser.Parser.HandleReasoning | llama.cpp/common/chat-parser.cpp:193-211 | appends one stripped section, inline with tags or as reasoning after the pending prefix, which is used up by the first non-empty one |
| ChatParser.Parser.StartTagAt | llama.cpp/common/chat-parser.cpp:243-246 | how much of the start tag fits and whether the text agrees with it |
| ChatParser.Parser.BlankRest | llama.cpp/common/chat-parser.cpp:230-241 | with only spaces left, forced-open reasoning takes them and otherwise nothing changes |
| ChatParser.Parser.OpenTagged | llama.cpp/common/chat-parser.cpp:253-258 | leading spaces become content, then the sections follow with the tag as pending prefix |
| ChatParser.Parser.OpenSection | llama.cpp/common/chat-parser.cpp:271-281 | text without an end tag is taken as far as no end tag may be starting |
| ChatParser.Parser.AfterEnd | llama.cpp/common/chat-parser.cpp:289-313 | behind an end tag: spaces, and whether another start tag opens, begins or does not follow |
| ChatParser.Parser.ParseSection | llama.cpp/common/chat-parser.cpp:265-314 | one turn of the loop, in every branch |
| ChatParser.Parser.ParseSections | llama.cpp/common/chat-parser.cpp:265-314 | with text in a tag the loop terminates and leaves the state of all sections |
| ChatParser.Parser.RestoreState | llama.cpp/common/chat-parser.cpp:217-221 | back to the saved position, appended text cut off |
| ChatParser.Parser.TryParseReasoning | llama.cpp/common/chat-parser.cpp:171-315 | the whole attempt, whenever it ends: what is appended, where the cursor ends, and that declining leaves position, content and reasoning unchanged |
| ChatParser.Parser.ConsumeRest | llama.cpp/common/chat-parser.cpp:317-321 | takes all the text behind the cursor |
| ChatParser.Parser.ParseContentOnly | llama.cpp/common/chat.cpp:2866-2869 | a message without tools: the attempt at reasoning, then the rest as content |
| ChatStreaming.NeverRetracts | llama.cpp/common/chat-parser.cpp:171-315 | if one read saw a prefix of what another saw, the reasoning and the content it shows are prefixes of the other's; a final read counts when reasoning is kept apart |
| ChatMessage.MessageNeverRetracts | llama.cpp/common/chat.cpp:2866-2869 | the same of the whole message: a read of a longer text shows an extension of what an earlier one showed, or nothing at all |
| ChatMessage.MessageStaysIff | llama.cpp/common/chat.cpp:2866-2869 | it always shows an extension iff the earlier text is not spaces alone with reasoning on, not forced open and still to begin |
| ChatStreaming.FinalInlineReadRetracts | llama.cpp/common/chat-parser.cpp:198-203 | with a final read and inline reasoning that fails, on a concrete pair of texts |
| ChatFinal.FinalInlineSafeIff | llama.cpp/common/chat-parser.cpp:193-203 | no later read takes back what a final inline read shows iff its last section is not left open: text that is not blank, with no end tag beginning at its end |
| ChatStreaming.SectionsAreTrace | llama.cpp/common/chat-parser.cpp:265-314 | what the loop consumes and appends is a proper trace of sections: end tags only between them, spaces in the gaps, unfinished tags only at the end |
| ChatStreaming.ReasoningIsSegmentation | llama.cpp/common/chat-parser.cpp:171-315 | a handled attempt consumed leading spaces and then nothing, an unfinished start tag, or a proper trace, and appended that trace's stripped sections |
| ChatResults.SectionsApart | llama.cpp/common/chat-parser.cpp:193-210 | kept apart, the sections' texts without outer spaces are the reasoning and none of them content; where the reasoning was forced open, each section behind a start tag brings that tag |
| ChatResults.SectionsInline | llama.cpp/common/chat-parser.cpp:193-203 | kept inline, they are content, each between its tags, the last without the second one if it is still open, and none is reasoning |
| ChatResults.ReasoningKept | llama.cpp/common/chat-parser.cpp:171-315 | of a handled attempt kept apart only spaces in front of the start tag are content, and inline nothing is reasoning |
| ChatResults.TaggedMessage | llama.cpp/common/chat.cpp:2866-2869 | a message of spaces, a start tag, a text, an end tag and a rest: the text from its first to its last character that is no space is the reasoning, or stands between the tags, and spaces and rest are the content |
| ChatResults.ForcedMessage | llama.cpp/common/chat.cpp:2866-2869 | the same without a start tag where the reasoning was forced open; the spaces in front are then dropped |
| ChatResults.OpenMessage | llama.cpp/common/chat.cpp:2866-2869 | a message whose section is still open: its text without a tail that begins the end tag |
| ChatResults.PlainMessage | llama.cpp/common/chat.cpp:2866-2869 | without reasoning, all the text is the content |
| ChatStreaming.StandsStillIff | llama.cpp/common/chat-parser.cpp:289-309 | a turn that opens another section leaves the cursor where it was iff both tags are empty and a non-space is there |
| ChatStreaming.LoopEndsIff | llama.cpp/common/chat-parser.cpp:265-314 | the section loop ends after some number of turns iff a tag has text or only spaces are left |
| ChatStreaming.AttemptEndsIff | llama.cpp/common/chat-parser.cpp:171-315 | the attempt never enters the loop, or leaves it, iff a tag has text, reasoning is off or only spaces are left: the inputs TryParseReasoning is specified for |
| ChatStreaming.PreludeNeverRetracts | llama.cpp/common/chat-parser.cpp:141-163 | the text before a literal, once shown, is a prefix of what a longer text shows |
| ChatResults.LiteralSought | llama.cpp/common/chat-parser.cpp:141-163 | what a search returns: the first occurrence behind the cursor with its whole range, else on partial text the earliest beginning in the whole text if it is not before the cursor, with a range up to the end, else nothing |
| ChatStreaming.PartialLiteralSeenIff | llama.cpp/common/chat-parser.cpp:151-161 | on partial text a beginning of the literal behind the cursor is reported iff no earlier beginning straddles the cursor |
| ChatStreaming.StraddlingLiteralMissed | llama.cpp/common/chat-parser.cpp:151-153 | a concrete text on which it is missed |
| JsonCleanup.Cleaner.Clean | llama.cpp/common/chat-parser.cpp:445-522 | the recursive cleaner computes the walk with one shared path, including where it leaves that path |
| JsonCleanup.Cleaner.CleanObject | llama.cpp/common/chat-parser.cpp:473-504 | the loop over an object, stopping at a healed key or value without popping |
| JsonCleanup.Cleaner.CleanArray | llama.cpp/common/chat-parser.cpp:505-520 | the loop over an array, stopping at a healed string |
| JsonCleanup.SharedPathRefinesSpec | llama.cpp/common/chat-parser.cpp:443-522 | if nothing that is still processed follows a value that leaves a key, the shared-path walk returns the tree, flag and errors of the recursion that gives each child its exact path, for every set of paths |
| JsonCleanup.SpineIsAligned | llama.cpp/common/chat-parser.cpp:443-522 | that is so if the marker occurs only on the rightmost spine, where healing puts it |
| JsonPaths.SharedPathExact | llama.cpp/common/chat-parser.cpp:443-522 | for every value with distinct keys and arrays in order, walk and exact recursion agree for all sets of dumped and content paths iff it is so |
| JsonPaths.ArrayLeftoverUnseen | llama.cpp/common/chat-parser.cpp:505-520 | arrays out of order need not matter: a value on which a leftover key is on a later item's path and yet the two agree under all paths |
| JsonCleanup.CleanedIsPurged | llama.cpp/common/chat-parser.cpp:445-522 | with exact paths, no key and no string outside dumped texts contains the marker, and on a partial read no dumped text the dump marker, which the marker is part of |
| JsonCleanup.ConsumedIsPurged | llama.cpp/common/chat-parser.cpp:445-530 | nor in what the code's walk with its shared path returns, wherever no leftover key is looked at |
| JsonResults.DumpedAtPath | llama.cpp/common/chat-parser.cpp:446-459 | at a dumped path stands the dump, on a partial read up to the first dump marker and empty if that is a lone quote; it then does not contain the dump marker, and is reported healed iff the dump did |
| JsonResults.ContentAtPath | llama.cpp/common/chat-parser.cpp:460-472 | at a content path stands the string up to the first marker, reported healed iff it had one; anything else is an error |
| JsonResults.ReportedIff | llama.cpp/common/chat-parser.cpp:443-530 | a value is reported healed iff something is cut or dropped in it: a dumped text, a content string, or a key or string that the loops reach |
| JsonResults.ReportedWithoutPaths | llama.cpp/common/chat-parser.cpp:473-522 | without paths that is iff the marker is in a key or in a string below the root |
| JsonResults.CompleteUnchanged | llama.cpp/common/chat-parser.cpp:473-522 | without paths a complete value with distinct keys comes back as it is |
| JsonResults.StreamedArguments | llama.cpp/common/chat.cpp:768-771 | a streamed tool call: the name as it is, the arguments dumped up to where they were healed, reported partial iff they were cut |
| JsonResults.StreamedCalls | llama.cpp/common/chat.cpp:917-924 | the same in a list of calls, whose items are cleaned under the path of the list |
| JsonCleanup.TruncatedField | llama.cpp/common/chat-parser.cpp:485-497 | the first healed string value ends its object, whatever fields come before: on a content path healed inside the string it is cut exactly before the marker, or its dump is if the path is dumped too; on any other path, dumped ones included, it is dropped |
| JsonCleanup.TruncatedFieldWalk | llama.cpp/common/chat-parser.cpp:473-504 | the same of the loop with the shared path, from whatever path the earlier fields have left, its own key staying on it |
| JsonResults.TruncatedKey | llama.cpp/common/chat-parser.cpp:476-480 | the first healed key ends its object and is dropped with all behind it |
| JsonResults.TruncatedItem | llama.cpp/common/chat-parser.cpp:505-513 | the first healed string of an array ends it and is dropped with all behind it |
| JsonPaths.RepeatedKeyMisleads | llama.cpp/common/chat-parser.cpp:484-501 | the tree that a text with a repeated key is healed to, on which the leftover key keeps arguments from being dumped |
| JsonCleanup.TryConsumeJsonWithDumpedArgs | llama.cpp/common/chat-parser.cpp:409-530 | the whole call, and that it returns what exact paths give where no leftover key is looked at |
| JsonCleanup.CompleteReportedPartialIff | llama.cpp/common/chat-parser.cpp:443-530 | a complete value is reported partial iff some path but not the root is dumped and the root is a content path; then it is a string that comes back empty |
| Base64.ValueOfSymbol | llama.cpp/common/base64.hpp:344-389 | every symbol is read back as its value, under its alphabet and under detection, which it settles iff it is special |
| Base64Text.SymbolIsLetter | llama.cpp/common/base64.hpp:84-86 | the symbol of every value is the letter at that place of the standard or the URL alphabet |
| Base64Text.EncodedText | llama.cpp/common/base64.hpp:80-144 | an encoded text is such letters and behind them as many '=' as are missing to a multiple of four |
| Base64Text.LetterIff | llama.cpp/common/base64.hpp:359-389 | the characters that have a value are the letters of the alphabet, or under detection of either |
| Base64Text.DecodesIff | llama.cpp/common/base64.hpp:200-243 | under a given alphabet a text is decoded iff it is letters up to its end or its first '=', and nothing but '=' behind that unless reading loosely |
| Base64Text.AnnouncedSize | llama.cpp/common/base64.hpp:324-327 | the announced decoded size is the least multiple of three with room for all symbols |
| Base64.RoundTrip | llama.cpp/common/base64.hpp:80-243 | decoding what was encoded gives the bytes back, both alphabets, same alphabet or detection, strict or loose |
| Base64.EncodedSize | llama.cpp/common/base64.hpp:338-341 | the encoded length is exactly the announced one |
| Base64.DecodedSize | llama.cpp/common/base64.hpp:324-327 | k symbols decode to floor(6k/8) bytes, never more than the announced maximum |
| Base64.AutoDecodesAsDetected | llama.cpp/common/base64.hpp:367-386 | detection decodes every input as the alphabet of its first special character does |
| Base64.EncodeGroup | llama.cpp/common/base64.hpp:88-141 | one turn of the encoder, with its padding |
| Base64.Encode | llama.cpp/common/base64.hpp:80-144 | the encoder regroups the bits of the input by six and pads to a multiple of four |
| Base64.CarryStep | llama.cpp/common/base64.hpp:216-228 | the carry invariant: bytes written and unused low bits are together the bits read |
| Base64.DecodeTo | llama.cpp/common/base64.hpp:200-243 | the decoder regroups the bits by eight, and fails iff a character is invalid or, unless loose, something follows the padding |
| Base64.ProgressStep | llama.cpp/common/base64.hpp:214-228 | in place, each byte is written strictly below the next character to be read |
| Base64.DecodeInPlace | llama.cpp/common/base64.hpp:294-313 | decoding into the buffer being read gives the result of decoding elsewhere, for every input, and leaves the rest of the buffer alone, also on failure |
| GgmlLoader.Hyperparameters.Load | llama.cpp/convert_llama_ggml_to_gguf.py:59-73 | seven words and a known file type, or the error |
| GgmlLoader.Hyperparameters.SetNFf | llama.cpp/convert_llama_ggml_to_gguf.py:53-57 | the second dimension of the last tensor of that name, or the error |
| GgmlLoader.Vocab.Load | llama.cpp/convert_llama_ggml_to_gguf.py:84-98 | appends the items of the text at the offset, with or without scores, and returns how far they reach |
| GgmlLoader.Tensor.Load | llama.cpp/convert_llama_ggml_to_gguf.py:110-131 | the fields from the header at the offset, the padding, the wrapped byte count, and how far the 64-bit offset moves |
| GgmlLoader.GgmlModel.ValidateHeader | llama.cpp/convert_llama_ggml_to_gguf.py:145-166 | the format and version, or the error in the order the code finds it |
| GgmlLoader.LoadTensors | llama.cpp/convert_llama_ggml_to_gguf.py:188-194 | every scan that ends: its tensors in the order they are read, wherever the offset goes, and the index of their names |
| GgmlLoader.GgmlModel.Load | llama.cpp/convert_llama_ggml_to_gguf.py:180-200 | the whole load of a file whose scan ends, its result and every field of the model |
| GgmlLayout.HeaderFields | llama.cpp/convert_llama_ggml_to_gguf.py:145-166 | magic, version and the errors of a header, by the bytes it is made of |
| GgmlLayout.HyperFields | llama.cpp/convert_llama_ggml_to_gguf.py:59-73 | which four bytes each hyperparameter is, and the known file types |
| GgmlLayout.EligibleAre | llama.cpp/convert_llama_ggml_to_gguf.py:168-178 | which format, version and file type can be converted |
| GgmlLayout.ItemFields | llama.cpp/convert_llama_ggml_to_gguf.py:84-98 | an item's length, text and score, byte by byte, and its errors |
| GgmlLayout.TensorFields | llama.cpp/convert_llama_ggml_to_gguf.py:110-131 | where the fields of a tensor stand, its padding, and its errors |
| GgmlLayout.BlockSizesAre | llama.cpp/gguf-py/gguf/constants.py:3069-3102 | elements and bytes of a block of the simple quantised types |
| GgmlLayout.SuperBlockSizesAre | llama.cpp/gguf-py/gguf/constants.py:3069-3102 | and of the types with blocks of 256 |
| GgmlLayout.FeedForwardIs | llama.cpp/convert_llama_ggml_to_gguf.py:54 | the tensor that gives the width is layers.0.feed_forward.w1.weight |
| GgmlLayout.LoadedFrom | llama.cpp/convert_llama_ggml_to_gguf.py:180-200 | where the parts of a loaded file stand, and that its width is the second dimension of the last tensor of that name |
| GgmlLayout.RefusedFor | llama.cpp/convert_llama_ggml_to_gguf.py:145-200 | which of its errors a file is refused with, in the order they are found |
| GgmlScan.EndsSoon | llama.cpp/convert_llama_ggml_to_gguf.py:190-194 | a scan that ends does so within twice as many tensors as there are bytes, and one more |
| GgmlScan.EndlessIff | llama.cpp/convert_llama_ggml_to_gguf.py:190-194 | the scan never ends iff it comes back to an offset it has been at |
| GgmlFormat.TensorMapIsLast | llama.cpp/convert_llama_ggml_to_gguf.py:193 | the index knows exactly the names that occur and leads to the last tensor of each |
| GgmlRoundTrip.LoadOfWritten | llama.cpp/convert_llama_ggml_to_gguf.py:84-200 | every well-formed file of the three formats, written and loaded, comes back with header, hyperparameters, vocabulary and every tensor's name, shape, type and data; the width is the second dimension of the last written tensor of the well-known name |
| GgmlRoundTrip.TensorWasWritten | llama.cpp/convert_llama_ggml_to_gguf.py:110-131 | a tensor that ends within the data is what would be written, up to the padding |
| GgmlRoundTrip.WrittenOfLoad | llama.cpp/convert_llama_ggml_to_gguf.py:84-200 | a loaded file whose scan ends with it, with no negative computed count and no wrapped offset, is well formed by the computed counts, and writing what was loaded gives the same bytes iff its padding is zero |
| GgmlRoundTrip.RewrittenIff | llama.cpp/convert_llama_ggml_to_gguf.py:84-200 | any file that loads is the file written from what was loaded iff the scan ends with it, no computed count is negative, no offset has wrapped and the padding is zero |
| GgmlTiling.ScanTilesIff | llama.cpp/convert_llama_ggml_to_gguf.py:188-194 | the tensors of every scan that ends lie in order iff every step ends above its own header, and tile the data, each header followed by data of the computed length up to the next header, iff no computed count is negative and no offset has wrapped |
| GgmlTiling.LoadedFileTilesIff | llama.cpp/convert_llama_ggml_to_gguf.py:180-200 | the same of every file that loads, each tensor being what is read at its header and the returned offset the end of the last |
| GgmlTiling.OneOwner | llama.cpp/convert_llama_ggml_to_gguf.py:188-194 | in order, every byte from the first header up to the returned offset belongs to exactly one tensor |
| GgmlTiling.LoadedOutOfOrder | llama.cpp/convert_llama_ggml_to_gguf.py:188-194 | a concrete file that loads and whose last tensor's header lies inside the first tensor's data; its width is 8, from dimensions 2 and 8 |
| GgmlTiling.CountIsExact | llama.cpp/convert_llama_ggml_to_gguf.py:126-127 | the computed byte count is the true one iff elements times type size fits into 63 bits |
| GgmlTiling.CountSign | llama.cpp/convert_llama_ggml_to_gguf.py:126-127 | the computed count is the floored quotient of the product's signed 64-bit residue, so it is negative iff the residue is half the range or more |
| GgmlTiling.StepAdvancesIff | llama.cpp/convert_llama_ggml_to_gguf.py:110-131 | a step ends above its own header iff that residue is small enough for the offset, or negative by less than the header is long |
| GgmlTiling.LeadsBack | llama.cpp/convert_llama_ggml_to_gguf.py:126-131 | four dimensions whose product wraps to minus any chosen word: wherever this header stands, its tensor ends that much before the header's end |
| GgmlTiling.StandsStill | llama.cpp/convert_llama_ggml_to_gguf.py:126-131 | by the header's own length it leads back to itself, and the scan never ends |
| GgmlTiling.CompleteIffEndsThere | llama.cpp/convert_llama_ggml_to_gguf.py:190-200 | data of the computed lengths lie in the file iff the returned offset is its length, no computed count is negative and no offset has wrapped |
| GgmlTiling.TrulyCompleteIff | llama.cpp/convert_llama_ggml_to_gguf.py:126-200 | data of the true lengths lie in the file and their products fit into 63 bits iff moreover all products fit; in a file of less than 2 to the power of 55 bytes they lie in it iff the returned offset is its length and all products fit |
| GgmlTiling.CountVanishes | llama.cpp/convert_llama_ggml_to_gguf.py:126-127 | a product that does not fit may be counted as zero: four dimensions of 65536 bytes |
| GgmlTiling.CutFileLoadsAlike | llama.cpp/convert_llama_ggml_to_gguf.py:121-131 | a file cut anywhere behind its headers loads exactly as the whole one, and unless an offset is below zero only such cuts do |

## Left out

- Lora.Homomorphism: entries are mathematical reals, so no claim about rounding, dtypes or the conversion of both factors to 32-bit floats; runs are of pairs whose A is not batched, for the others single operations are covered by LoraBatches and LoraLeads.
- LoraAccepts.IndexAccepted: when a tuple with several lists, or with integers on both of the last two axes, is accepted is not stated; what it then gives is (LoraIndexing.SeveralListsDiffer, LoraIndexing.TrailingIntegerDiffers).
- Lora.ReshapeStep: element counts are unbounded integers.
- Layouts.RopeKeepsScores: the rotation angles are parameters, equal for both layouts; frequency factors and their rounding are not modelled.
- Plamo.ConversionKeepsAttention: attention itself is an arbitrary function of a head's query and a KV head index.
- Bpe.ReconstructMerges: the printable spelling of token bytes is not modelled; merges are pairs of byte strings.
- Experts.ArrivalReturns: a tensor's name is its layer, expert and matrix, its data is opaque; name mapping and the shape check of stacking are left out, and arrivals of one name twice are covered by ModifyTensors and ExpertResults only.
- ChatParser.Parser.TryParseReasoning: attempts that never end are excluded; AttemptEndsIff says which those are.
- ChatFinal.FinalInlineSafeIff: asks for one non-space character that occurs in neither closing tag, which the longer text may go on with.
- ChatParser.Parser.MoveTo: an exception is an unsuccessful result.
- Strings: characters are not decoded; a character is a space as in the C locale.
- JsonCleanup.Cleaner.Clean: a partial JSON value, its healing marker and the dump of a value to text are inputs; JSON parsing and dumping are not part of this model, nor is the random choice of the marker; a number, boolean or null is its text.
- Base64.DecodeTo: reserving memory is not modelled; an exception is an error result.
- GgmlLoader.LoadTensors: a scan that never ends is excluded from the methods; EndlessIff says which those are.
- JsonPaths.SharedPathExact: for arrays in which an item leaves a key and another item follows only the one direction is stated, because the other is false (ArrayLeftoverUnseen); healing puts the marker into the last item of an array.
- GgmlRoundTrip.LoadOfWritten: a written file is shorter than 2 to the power of 63, as every file is.
- GgmlLoader.Vocab.Load: a score stays the four bytes that were read and is not interpreted as a float.
- GgmlLoader.GgmlModel.Load: the state of a model whose loading failed is not described; log messages and the texts of errors are left out.
- Regular expressions, grammars, tool calls and the other message formats of the chat parser, hyperparameter and vocabulary writing, lazy tensors and dtype selection of the converters, quantisation, and all input and output.
