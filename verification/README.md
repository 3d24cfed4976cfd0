# A verified model of the speech engine's host code

The engine turns text into speech with a talker transformer, a code predictor and a neural codec.
The tensor maths runs in a foreign library; around it the host code tokenizes the text, assembles
the prompt, drives the autoregressive loop over key/value caches, samples codes, decodes audio in
blocks while it is still being generated, joins the pieces of long texts, and reads and writes
code files and audio. This project models that host code in Dafny and proves what it promises.

Tensor operations are uninterpreted functions of the rows they may depend on; samples and logits
are reals (or minus infinity); bytes, code points and machine words are bounded integers. Code
that changes state step by step is modelled as methods and classes with the original's loops,
proved against specification functions, and the specification functions are then related to each
other and to independent references.

| Files | What they model |
|---|---|
| `BpeBytes`, `BpePreTokenize`, `BpeRules`, `BpeMerge`, `BpeEncode`, `BpeLossless` | byte-level BPE tokenizer: byte table, scanner, what its rules mean for a text, merge loop, special-token splitter, and the proof that ids determine the text |
| `CodecLocality`, `CodecGeometry` | receptive fields of the codec decoder: how far back a chain of causal stages looks, and that no shorter context will do |
| `CodecStream`, `CodecRuns` | chunked decode, one-shot and streaming, what whole runs deliver, and exactly when that is the whole decode |
| `SplitText`, `SplitRules`, `JoinTrimmer`, `JoinRuns` | long texts: the sentence packer and what it does to a text, the silence filter and the piece loop |
| `Talker`, `Predictor`, `Generate` | legacy and replayed forward passes over a cache, the predictor's frozen schedule, and the generation loop up to the audio |
| `Sampler`, `Philox` | the sampling chain and the counter-based generator behind it |
| `PromptKey`, `PromptBuilder` | prompt rows, the two aligned streams and the prefix cache |
| `RvqFile`, `RvqEncode` | packed code files and residual vector quantisation |
| `Resample`, `Wav` | resampler indexing, RIFF WAVE writing and reading |
| `Bits`, `Multiples`, `Vectors`, `Seqs` | shared arithmetic, rows and sequences |

`dafny verify dfyconfig.toml` checks everything.

## What the proofs found

- **Left context of the codec.** Stitched blocks equal the whole decode on all decoders of a
  geometry if and only if the left context is at least the decoder's receptive field or no block
  starts behind the left context (`CodecRuns.StitchesExactly`; for what clients are handed
  `CodecRuns.StreamIsWholeDecode` and `CodecRuns.ShortContextIsHeard`). With 8 layers of window 72
  that field is 580 frames. The default context is 25 frames; a server on a GPU uses 75, on a CPU
  25. So the default is exact up to 300 frames and the GPU server's up to 86; for every longer
  utterance the geometry alone no longer guarantees it (`CodecRuns.ShippedSettings`). The comment
  at `tools/tts-server.cpp:306-308` counts the window of one layer only.
- **Padding comment.** The comment at `src/causal-trans-conv.h:129` gives the right padding as
  `(T - 1) % stride`; the code pads to the next multiple of the stride. The two agree exactly when
  `2 * ((T - 1) % s) + 1 == s` (`CodecGeometry.CommentedPadding`). The model follows the code.
- **Growth comment.** `src/codec-chunked-decode.h:100` speaks of growth by 4 after each block; the
  code grows by 2 once and by 4 from then on (`CodecStream.DoublesOnce`). The model follows the code.
- **Malformed text.** On an overlong spelling of a newline or digit, which is not UTF-8, the
  scanner never advances (`BpePreTokenize.ChunkProgress`, `BpePreTokenize.OverlongNewlineStalls`),
  and those positions are the only ones that keep it from the end (`BpePreTokenize.ScanEndsExactly`).
- **Split length 1.** `split_text` never ends for target 0 and a non-empty sentence; the server
  reaches it with a split length of 1 (`SplitText.CutMakesProgress`).
- **Short codes in files.** The reader's count is right if and only if the padding bits are fewer
  than a code, which can fail below 8 bits per code (`RvqFile.WriteRead`,
  `RvqFile.ShortCodesMiscount`).
- **Window override.** The talker results need W <= max_seq_len. The environment override at
  `src/pipeline-tts.cpp:329-332` does not check it, and nothing is claimed for a wider window.

## Model

| member | source | states |
|---|---|---|
| BpeBytes.BuildByteEncoder | src/bpe.h:26-79 | fills all 256 entries of the byte table, each with the one symbol of its byte, through the listing order of the original (three printable ranges, then the rest from codepoint 256) |
| BpeBytes.RemappedGrows | src/bpe.h:45-57 | the count that numbers the remapped bytes grows strictly over non-printable bytes, so no two of them share a codepoint |
| BpeBytes.ByteCpInjective | src/bpe.h:26-79 | different bytes get different codepoints |
| BpeBytes.ByteTable | src/bpe.h:26-57 | the table byte by byte: printable bytes stand for themselves, 0x00-0x20, 0x7F-0xA0 and 0xAD for U+0100 to U+0143 in that order |
| BpeBytes.SymbolBytes | src/bpe.h:59-79 | a symbol is the one- or two-byte UTF-8 form of its codepoint |
| BpeBytes.SymbolIsOneChar | src/bpe.h:59-106 | the symbols are a prefix code for the reader: whatever follows, a symbol's first byte announces its length and the codepoint read from it names the byte |
| BpeBytes.ByteLevelInjective | src/bpe.h:503-509 | the byte-level string of a text determines the text |
| BpeBytes.ValidIsShaped | src/bpe.h:82-106 | every string of UTF-8 characters by the grammar of section 4 of RFC 3629 has all announced continuation bytes inside the text and no multi-byte spelling of ASCII |
| BpeBytes.ShapedCut | src/bpe.h:590-627 | cutting such a text in front of a byte that starts a character leaves two such texts |
| BpePreTokenize.Gpt2PreTokenize | src/bpe.h:159-380 | the scanner loop with all its rules ends and produces the chunks cut by ChunkEnd from position 0, without reading past the end |
| BpePreTokenize.ChunkEnd | src/bpe.h:165-378 | where a chunk ends under rules 1 to 6: never before its start and never past the end of the text |
| BpePreTokenize.ScanContraction | src/bpe.h:169-220 | rule 1 tries ll, re, ve, s, t, m, d in that order, ignoring case, and refuses a suffix that a letter follows |
| BpePreTokenize.ScanSpace | src/bpe.h:289-358 | the whitespace rule, including the one byte a run gives up to the word behind it; what the rule means is BpeRules.SpaceRule |
| BpePreTokenize.EmitDigits | src/bpe.h:261-273 | a run of digits comes out as one chunk per digit, which is what cutting chunk after chunk gives |
| BpePreTokenize.ChunksPartition | src/bpe.h:159-380 | for every text the scanner gets through, from every start, the chunks are non-empty and concatenate to the text |
| BpePreTokenize.ChunkProgress | src/bpe.h:261-283 | a turn of the scan fails to advance if and only if it stands on a multi-byte sequence that decodes to a digit or newline |
| BpePreTokenize.OverlongNewlineStalls | src/bpe.h:276-283 | the two-byte spelling C0 8A of a newline, which is not valid UTF-8, makes the scan repeat an empty chunk for ever |
| BpePreTokenize.ScanEndsExactly | src/bpe.h:159-380 | for every text whose announced bytes are present and every start: the scan reaches the end if and only if no position its cuts reach stands on such a sequence |
| BpePreTokenize.WordsStayWhole | src/bpe.h:222-258 | over a whole text no boundary between two chunks has a letter on both sides |
| BpePreTokenize.DigitsStandAlone | src/bpe.h:260-273 | an ASCII digit anywhere in a chunk is that whole chunk |
| BpeRules.WordRule | src/bpe.h:222-236 | a letter starts a chunk that is all letters and ends where the letters end |
| BpeRules.SymbolWordRule | src/bpe.h:238-258 | one character that is no letter, digit or whitespace joins all the letters behind it |
| BpeRules.SymbolRule | src/bpe.h:360-378 | other symbols take all symbols behind them and then all newlines |
| BpeRules.NewlineRule | src/bpe.h:276-287 | a newline starts a chunk of all the newlines there are |
| BpeRules.DigitRule | src/bpe.h:260-273 | a digit is one chunk of one byte |
| BpeRules.SpaceRule | src/bpe.h:289-358 | the whitespace rule by what it takes and what it stops at: a run in front of something else gives up its last byte, a single space joins all letters, or all symbols and then newlines, behind it, and stays alone in front of a digit |
| BpeRules.ContractionRule | src/bpe.h:169-220 | a contraction is exactly one of 's 't 'm 'd 'll 're 've behind either quote, in either case, with no letter after it, and is one chunk |
| BpeRules.SpaceJoinsNext | src/bpe.h:300-345 | over whole texts a chunk that is one space or tab has a digit, more whitespace or nothing behind it, never a letter |
| BpeRules.LettersStayTogether | src/bpe.h:222-258 | over whole texts a chunk that holds a letter goes on to the end of the letters |
| BpeRules.NewlinesStayTogether | src/bpe.h:276-287 | over whole texts no cut has a newline on both sides |
| BpeRules.SymbolsStayTogether | src/bpe.h:238-258 | over whole texts a symbol that ends a chunk has no symbol and no newline behind it, and no letter when it is the whole chunk |
| BpeRules.AsciiClasses | src/bpe.h:108-157 | in ASCII letters, digits, newlines and whitespace are the expected characters |
| BpeMerge.BpeMergeLoop | src/bpe.h:513-543 | the rank-search loop ends and equals the reference that repeatedly joins the leftmost pair of least rank |
| BpeMerge.MergedKeepsText | src/bpe.h:537-541 | merging preserves the concatenation of the symbols |
| BpeMerge.MergedIsIrreducible | src/bpe.h:521-542 | in the result no adjacent pair has a merge rule |
| BpeMerge.MergedKeeps | src/bpe.h:521-542 | a property of all symbols that every merge rule keeps holds of all resulting tokens |
| BpeMerge.MergeStep | src/bpe.h:521-541 | the pair with the least rank, the leftmost of several, looked up as "left space right", becomes one symbol and merging goes on from there |
| BpeMerge.NoMerge | src/bpe.h:534-536 | symbols without a rule of rank below INT_MAX stay as they are |
| BpeEncode.ByteLevelEncode | src/bpe.h:503-509 | the table look-up loop spells the text byte by byte |
| BpeEncode.SplitSymbols | src/bpe.h:550-560 | walking the symbol string by announced lengths finds exactly one symbol per original byte |
| BpeEncode.EncodeChunk | src/bpe.h:546-581 | appends the ids of the merged pieces, and takes the unknown-token fallback exactly when some piece is not in the vocabulary |
| BpeEncode.PieceRule | src/bpe.h:565-580 | a piece in the vocabulary is its one id; another is looked up byte by byte, and bytes that are no tokens are dropped |
| BpeEncode.FindLeftmost | src/bpe.h:605-614 | finds the leftmost place any special token occurs, and among specials starting there the one registered first; reports none only when none occurs |
| BpeEncode.SpecialRule | src/bpe.h:605-627 | up to the first place where a special stands the text is a segment, then comes the id of the special registered first there, then what the rest gives |
| BpeEncode.PlainRule | src/bpe.h:616-619 | without a special all of the text is one segment |
| BpeEncode.BpeEncodeText | src/bpe.h:590-633 | the splitter loop ends and equals segment ids and special ids from left to right, plus the end id when asked |
| BpeLossless.NoFallback | src/bpe.h:565-580 | with all byte symbols and all merge products in the vocabulary, no merged piece of any chunk is unknown |
| BpeLossless.ChunkLossless | src/bpe.h:546-581 | mapping a chunk's ids back through the vocabulary and the inverse byte table gives the chunk |
| BpeLossless.SegmentLossless | src/bpe.h:593-601 | the same for a segment between specials, through the pre-tokenizer |
| BpeLossless.TextLosslessFrom | src/bpe.h:590-633 | the same from any position of a text on, specials read back verbatim |
| BpeLossless.TextLossless | src/bpe.h:590-633 | tokenizing is lossless: for every valid UTF-8 text the ids decode to the text |
| BpeLossless.TokenizingIsInjective | src/bpe.h:590-633 | two valid texts with the same ids are the same text |
| BpeLossless.PrintableSpecialSpellsItself | src/bpe.h:383-405 | a special made of printable ASCII that is also a vocabulary entry stands there for its own text |
| CodecLocality.RunPrefix | src/pipeline-codec.cpp:165-175 | a chain of causal stages computes on a prefix the prefix of what it computes on the whole |
| CodecLocality.RunSuffix | src/pipeline-codec.cpp:165-175 | two inputs that agree on their last Reach + m frames give the same last m frames of output |
| CodecLocality.ChunkExact | src/codec-chunked-decode.h:57-83 | decoding a slice with all the context there is, or at least Reach frames of it, and dropping the context's samples gives those samples of the whole decode |
| CodecLocality.ReachIsTight | src/codec-chunked-decode.h:63-80 | for every chain geometry, every context below Reach and every slice, wherever it starts behind its context and wherever it ends, the shift decoder of that geometry decodes the slice of some input to other samples than the whole |
| CodecGeometry.ConvPadding | src/causal-trans-conv.h:154-167 | the right padding is ceil(T/s)*s - T and the output length is ceil(T/s), for every length, kernel, dilation and stride |
| CodecGeometry.CommentedPadding | src/causal-trans-conv.h:122-132 | the padding equals the (T-1) % s of the comment if and only if 2*((T-1) % s) + 1 == s |
| CodecGeometry.ConvTapInWindow | src/causal-trans-conv.h:146-167 | no tap of a stride-1 causal convolution reads right of its output or further left than (k-1)*d |
| CodecGeometry.TransConvLength | src/causal-trans-conv.h:97-112 | the trim leaves exactly T*s samples |
| CodecGeometry.TransConvTapInWindow | src/causal-trans-conv.h:102-112 | an output of frame t of the trimmed transposed convolution depends on frames in its window only, and does depend on the oldest |
| CodecGeometry.PermuteWeights | src/causal-trans-conv.h:69-75 | the weight permutation writes every slot of the [IC, K*OC] matrix, slot (oc*K + k, ic) with weight (ic, oc, k) |
| CodecGeometry.BuildCausalSlidingMask | src/tokenizer-transformer.h:169-180 | the mask is open exactly where k <= q and q - k < window, in an array indexed q*T + k |
| CodecGeometry.MaskIsWindow | src/tokenizer-transformer.h:169-180 | that condition is a causal window reaching window - 1 positions back |
| CodecGeometry.GeometryDetermines | src/pipeline-codec.cpp:165-175 | reach and samples per frame of a chain depend on the windows and rates alone |
| CodecGeometry.LayersReach | src/tokenizer-transformer.h:281-283 | n sliding-window layers reach n*(window - 1) frames further back than what follows them |
| CodecGeometry.DecoderReach | src/pipeline-codec.cpp:165-175 | the codec decoder with n transformer layers reaches n*(window - 1) + 12 frames back and makes 1920 samples per frame |
| CodecGeometry.ShippedDecoderReach | docs/ARCHITECTURE.md:295-305 | 8 layers of window 72 reach 580 frames, more than the default context of 25 frames and the 75 of a server on a GPU |
| CodecStream.RowOfRows | src/codec-chunked-decode.h:69-73 | codebook k of a K-major buffer of T frames stands at [k*T, k*T + T) |
| CodecStream.BlockStable | src/codec-chunked-decode.h:162-185 | frames pushed later do not change the samples of a block |
| CodecStream.SizesNeverShrink | src/codec-chunked-decode.h:143-144 | block sizes never shrink |
| CodecStream.DoublesOnce | src/codec-chunked-decode.h:143 | the test that chooses growth 2 holds exactly after the first block of a stream |
| CodecRuns.SizeClosed | src/codec-chunked-decode.h:143-144 | the sizes in closed form: first, then min(block size, 2 * first * 4^n) |
| CodecStream.CopySlice | src/codec-chunked-decode.h:69-73 | the per-codebook copies out of the K-major buffer give the K-major form of frames [a, b) |
| CodecStream.DecodeBlock | src/codec-chunked-decode.h:59-81 | one turn of the one-shot loop yields the block's samples, or nothing when the backend fails |
| CodecStream.ChunkedDecode | src/codec-chunked-decode.h:39-85 | the one-shot loop ends and yields all blocks of the flat schedule in order, empty for no frames or after any failure |
| CodecStream.DecoderStream.constructor | src/codec-chunked-decode.h:111-121 | a block size of at least 1 and a context of at least 0 are used as given, smaller ones as 1 and 0; the first block is firstChunk frames when that lies strictly between 0 and the block size, and a full block otherwise |
| CodecStream.DecoderStream.FirstBlockAtStart | src/codec-chunked-decode.h:111-147 | until the first block goes out fewer frames have come than its size, so PushFrame emits it in exactly the push that reaches the size, from frame 0 on |
| CodecStream.DecoderStream.EmitOne | src/codec-chunked-decode.h:162-185 | hands the client exactly the block's samples once; tells decode failure from cancellation; moves the cursor only on success |
| CodecStream.DecoderStream.PushFrame | src/codec-chunked-decode.h:126-147 | at most one block goes out per frame, exactly when enough frames are pending, covering exactly the pending frames; afterwards fewer frames are pending than the next block needs |
| CodecStream.DecoderStream.Flush | src/codec-chunked-decode.h:152-157 | the pending frames go out as one block, nothing if there are none |
| CodecRuns.EmittedBlock | src/codec-chunked-decode.h:126-147 | the block emitted when its last frame arrives is the block of the whole utterance |
| CodecRuns.LastBlock | src/codec-chunked-decode.h:152-157 | a run ends by flushing its short last block |
| CodecRuns.FirstBlock | src/codec-chunked-decode.h:111-147 | a run starts with frames [0, firstChunk) when 0 < firstChunk < chunk and with [0, chunk) otherwise, cut off at the end of the utterance |
| CodecRuns.BlockSpelled | src/codec-chunked-decode.h:162-185 | a block is the backend's answer to the slice with min(start, left) frames of context, without its first 1920 samples per context frame |
| CodecRuns.OneShotBlocks | src/codec-chunked-decode.h:57-83 | the one-shot result is the blocks [k*chunk, k*chunk + chunk), the last one short, one after the other |
| CodecRuns.StreamedOutcome | src/codec-chunked-decode.h:174-184 | a run is cancelled only by a refusal of the last block handed out, and what it has handed out only grows |
| CodecRuns.StreamedAudio | src/codec-chunked-decode.h:126-185 | for any backend, client and schedule, a run that finishes delivers every frame's block once, in order; one that stops on its own account met a backend failure |
| CodecRuns.StreamIsOneShot | src/codec-chunked-decode.h:39-185 | for every backend, with the progressive start off a finished stream delivers exactly the one-shot result |
| CodecRuns.SliceBound | src/codec-chunked-decode.h:162-172 | no slice is longer than a full block plus its left context |
| CodecRuns.BlockExact | src/codec-chunked-decode.h:162-185 | for a local decoder a block with its reach in context, or with everything before it, is the corresponding part of the whole decode |
| CodecRuns.ScheduleExact | src/codec-chunked-decode.h:126-185 | for a local decoder every schedule whose blocks are all covered that way concatenates to the whole decode |
| CodecRuns.StreamIsWholeDecode | src/codec-chunked-decode.h:39-185 | for a local decoder, stream (unless the client stops it) and one-shot loop both deliver the decode of the whole utterance, for every block size and progressive start, when the left context is at least the reach or no block starts behind the left context |
| CodecRuns.ShortContextFails | src/codec-chunked-decode.h:126-185 | the converse: for every geometry, codebook count, schedule, context and utterance length outside that condition there are a backend of the geometry and an utterance of that length on which the schedule does not give the whole decode |
| CodecRuns.StitchesExactly | src/codec-chunked-decode.h:39-185 | a schedule gives the whole decode on all decoders of a geometry and all utterances of N frames if and only if the left context is at least the reach or no block starts behind the left context |
| CodecRuns.ShortContextIsHeard | src/codec-chunked-decode.h:39-185 | outside the condition no finished stream delivers the whole decode of that utterance, whatever the client accepts, and with blocks of one size the one-shot loop does not return it |
| CodecRuns.OneShotFails | src/codec-chunked-decode.h:39-85 | for every block size and every left context below the reach there are a backend of the geometry and an utterance on which the one-shot loop differs from the whole decode |
| CodecRuns.FlatCovers | src/codec-chunked-decode.h:59-66 | with blocks of one size the condition is that the greatest multiple of the size below the length is at most the left context, or the left context is at least the reach |
| CodecRuns.ShippedSettings | tools/tts-server.cpp:305-317 | for the shipped geometry the 24 s blocks with 2 s of context are exact on all decoders for utterances of up to 300 frames and no longer ones, the GPU server's progressive start with 6 s up to 86 frames and no longer ones |
| JoinTrimmer.IsSilent | tools/tts-server.cpp:155-160 | the energy loop decides RMS below the threshold |
| JoinTrimmer.ApplyFadeIn | tools/tts-server.cpp:170-172 | sample i of the first 120 times 120 becomes i times the original, the rest is untouched |
| JoinTrimmer.ApplyFadeOut | tools/tts-server.cpp:213-215 | the same counted from the end |
| JoinTrimmer.Trimmer.BeginPiece | tools/tts-server.cpp:146-153 | resets the flags for a first or last piece and empties all three buffers |
| JoinTrimmer.Trimmer.Block | tools/tts-server.cpp:155-192 | after one more block the samples out and the three buffers are exactly what the blocks so far prescribe, also when the client refuses |
| JoinTrimmer.Trimmer.Push | tools/tts-server.cpp:194-204 | re-blocks the stream into 240-sample blocks: the state depends on the concatenated samples alone, however they are cut into calls; after a refusal the client holds a prefix of what the blocks handled prescribe |
| JoinTrimmer.Trimmer.EndPiece | tools/tts-server.cpp:206-222 | closes the piece: what the client received for it is PieceOutput of its samples, or a prefix of it when the client refuses |
| JoinTrimmer.BlocksSpell | tools/tts-server.cpp:194-210 | full blocks and the short last one spell the piece |
| JoinTrimmer.BlockLengths | tools/tts-server.cpp:194-210 | blocks are 240 samples, the last one 1 to 240 |
| JoinTrimmer.SilentMeans | tools/tts-server.cpp:155-160 | a block is silent when it is not empty and its sum of squares is below 0.006 squared times its length |
| JoinTrimmer.Snoc | tools/tts-server.cpp:155-192 | how emitted samples, held silence and remembered lead-in change with one more block, in all cases |
| JoinTrimmer.Closing | tools/tts-server.cpp:206-222 | emitted samples and the kept, faded part of the held silence make up the closed form |
| JoinTrimmer.EmittedIsPrefix | tools/tts-server.cpp:155-222 | what is out after any number of blocks is a prefix of the whole output, however the piece goes on |
| JoinRuns.SynthesizePieces | tools/tts-server.cpp:386-406 | the piece loop hands the client the joined output of all pieces, a single piece untouched, or stops because the client refused or a synthesis failed, and then the client holds a prefix of that output |
| JoinRuns.CutsDoNotMatter | tools/tts-server.cpp:194-204 | corollary of Trimmer.Push and SynthesizePieces: that output is the same however the pipeline cuts a piece into callbacks |
| JoinRuns.PieceParts | tools/tts-server.cpp:146-222 | a speaking piece is its lead, its body and its trail; the body is the unaltered stretch from first to last speech; the first lead-in and the last tail are kept whole; another lead is the last lead_keep samples of the opening silence faded in, another trail the first trail_keep samples of the closing silence faded out |
| JoinRuns.SilentPiecesVanish | tools/tts-server.cpp:161-168 | pieces without speech after the first are not heard |
| JoinRuns.SilentFirstPasses | tools/tts-server.cpp:161-168 | a first piece without speech is heard as it is |
| JoinRuns.JoinIsShort | tools/tts-server.cpp:379-406 | between the speech of one speaking piece and that of the next stand exactly the first 7200 samples of the one closing silence, faded out, and the last 3600 of the other opening silence, faded in; both bodies are intact |
| SplitText.SplitSentences | tools/tts-server.cpp:56-81 | the byte loop cuts the text into the specified sentences |
| SplitText.SentencesPartition | tools/tts-server.cpp:56-81 | the sentences concatenate to the text |
| SplitRules.SentencesOf | tools/tts-server.cpp:56-81 | each sentence but the last ends at a newline, at . ! or ? before white space or the end, or at one of the four marks, and no sentence has such an end inside |
| SplitText.FindCut | tools/tts-server.cpp:94-104 | the separator scan computes the specified cut point |
| SplitRules.CutExactly | tools/tts-server.cpp:93-104 | a long sentence is cut behind the last ", " "; " or ": " between target/3 and target; without one at the last space but not at byte 0, and without that at target |
| SplitText.CutMakesProgress | tools/tts-server.cpp:93-109 | a long sentence shrinks with a cut if and only if target >= 1; the server passes target 0 for a split length of 1 |
| SplitText.SplitIntoPieces | tools/tts-server.cpp:50-117 | for target >= 1 the packer ends and yields the specified pieces |
| SplitRules.PackStep | tools/tts-server.cpp:84-114 | a sentence that fits behind what is collected is collected; one that does not closes the piece, kept trimmed unless blank |
| SplitRules.LongStep | tools/tts-server.cpp:92-109 | a sentence over the target closes the collected piece, gives a piece up to its cut and goes on with the rest |
| SplitRules.PiecesAreGreedy | tools/tts-server.cpp:50-117 | for every text without overlong sentences the pieces are the trimmed texts of consecutive groups of its sentences, each group within the target and none that could have taken one sentence more |
| SplitText.PiecesKeepText | tools/tts-server.cpp:50-117 | the pieces' bytes other than white space are those of the text, in order |
| SplitText.PiecesFit | tools/tts-server.cpp:84-116 | every piece is non-empty, without space, tab, carriage return or newline at either end, and at most target + 1 bytes |
| SplitText.SentencesStayWhole | tools/tts-server.cpp:92-116 | every sentence of at most target bytes is, trimmed, a contiguous part of one piece |
| Talker.Causal | src/talker-forward.h:354-371 | in the stateless transformer later positions do not change earlier ones |
| Talker.CausalMaskHidesRest | src/talker-exec.h:125-138 | through a mask row open up to p, a read window of any width and content shows exactly rows 0..p |
| Talker.BuildMask | src/talker-forward.h:357-371 | the legacy mask lets query q see keys 0..n_past + q |
| Talker.CausalTable | src/talker-exec.h:179-185 | row p of the executor's table is open exactly up to p |
| Talker.LegacyLayer | src/talker-forward.h:150-206 | writes rows [n_past, n_past + T), each the projection of its input at its own position, and attends from each position to the rows up to it: outputs and cache rows equal the stateless layer's, rows behind them and other layers untouched |
| Talker.ExecLayer | src/talker-exec.h:108-139 | writes one row, the projection of the input at its position, and reads a fixed window with stale rows behind it: output and live rows equal the stateless layer's |
| Talker.WriteRows | src/talker-forward.h:152-175 | the write half of a layer: row n_past + t is the projection of input t at position n_past + t |
| Talker.Unrolled | src/talker-forward.h:247-424 | what a live cache holds and the pass answers, from the embeddings up: row p of every layer is its projection of its input at position p, its output attends to the rows up to p, the head reads the last position |
| Talker.FirstLayerRows | src/talker-forward.h:150-175 | row p of the first layer is its projection of embedding p at position p |
| Talker.RunLayers | src/talker-forward.h:293-312 | the whole stack on top of a correct cache equals the stateless transformer, leaves a correct cache and no row behind it changed |
| Talker.ForwardCore | src/talker-forward.h:247-424 | one pass returns the stateless hidden state and logits of the last position and advances the write head to n_past + T |
| Talker.Prefill | src/talker-forward.h:428-443 | from any cache content: fails exactly when the prompt does not fit, and otherwise equals the stateless transformer; row p of layer 0 is the projection of prompt row p at position p |
| Talker.Decode | src/talker-forward.h:448-461 | fails exactly when the cache is full, and otherwise equals the stateless transformer on the longer sequence; the new row of layer 0 is projected at its position |
| Talker.ExecDecode | src/talker-exec.h:283-325 | for every window W with n_past < W <= max_seq_len the replayed decode equals the stateless transformer and the live cache rows are those of the legacy path; the new row of layer 0 is projected at n_past |
| Predictor.Pass | src/code-predictor-exec.h:245-260 | projection, layers and head g on a correct cache give the reference logits and advance the write head |
| Predictor.LegacyRun | src/code-predictor-forward.h:185-295 | the same with positions and mask rebuilt for the call |
| Predictor.LegacyFrame | src/code-predictor-forward.h:355-445 | from any cache content, the reference codes of the frame; none exactly when a sample finds no candidate or the cache is too short; n_acoustic + 1 rows are written and the rows behind them keep their content |
| Predictor.InputsAt | src/code-predictor-forward.h:355-445 | input i of a frame: the talker's state, then code 0 through the talker's table, then code j through the predictor's table j - 1, all projected |
| Predictor.FrameExactly | src/code-predictor-forward.h:355-445 | the frame is the one list of codes in which every code is a candidate and answers the pass over the codes before it |
| Predictor.FrameCode | src/code-predictor-forward.h:400-440 | code g + 1 is sampled from head g at position g + 1 with subsequence base + 1 + g |
| Predictor.ExecInit | src/code-predictor-exec.h:149-182 | the frozen steps, positions and masks are those of the schedule, for every number of codebooks |
| Predictor.StepsChain | src/code-predictor-exec.h:150-160 | each frozen step starts where the previous one leaves the cache, step g uses head g, and the last leaves n_acoustic + 1 rows |
| Predictor.ExecRunStep | src/code-predictor-exec.h:245-260 | replaying frozen step g on the cache of the codes so far gives the logits of head g |
| Predictor.ExecFrame | src/code-predictor-exec.h:266-330 | from any cache content, the same codes and the same rows left alone as the legacy frame |
| Generate.TalkerStep | src/pipeline-tts.cpp:693-715 | prefill, replay or rebuild, chosen per step: hidden state, logits, live cache rows and write head are the same whichever ran, and n_tx_frames equals cur_len |
| Generate.BuildNext | src/pipeline-tts.cpp:803-832 | the next embedding is the sum of all codebook embeddings and of the trailing text row, or of padding once the text has run out |
| Generate.LaterCodeAdds | src/pipeline-tts.cpp:814-822 | another code g + 1 changes each coordinate of the next embedding by the difference of the two rows of table g |
| Generate.FirstCodeAdds | src/pipeline-tts.cpp:810-813 | another code 0 changes it by the difference of the two rows of the talker's table |
| Generate.OverlayIsLeft | src/pipeline-tts.cpp:824-832 | when all looked-up rows are zero the next embedding is the trailing text row of the step, or padding behind the text |
| Generate.NextFrame | src/pipeline-tts.cpp:681-787 | one step ends the run or appends a frame exactly as the reference does; the subsequence counter reaches the next frame's first |
| Generate.GenerateFrames | src/pipeline-tts.cpp:636-848 | for every executor setting, window W <= max_seq_len and prior cache content the loop produces the reference run, cur_len never exceeds max_seq_len, and a streaming client sees the stream of exactly those frames |
| Generate.EveryStep | src/pipeline-tts.cpp:681-848 | over whole runs: each frame is the predictor's answer to the codebook-0 sample of the state before it, at most max_new frames are made, and an early finish met the end code |
| Generate.StepSpelled | src/pipeline-tts.cpp:681-787 | frame t is made of the talker's logits and state after t frames, the codebook-0 codes so far as history and subsequence K * t |
| Generate.RunEnds | src/pipeline-tts.cpp:681-787 | why a run ends, in order: max_new frames, a cancelled poll, no room in the talker's cache, no candidate, the end code, or a frame without codes |
| Generate.ReservedNeverGenerated | src/pipeline-tts.cpp:733-748 | over whole runs: with a codebook-0 sampler that answers nothing of the suppressed range but the end code, no frame carries a code of that range, the end code or a negative one in codebook 0 |
| Generate.FedAt | src/pipeline-tts.cpp:803-832 | what the talker is fed at position T_ctx + t is frame t's embedding and overlay, whatever comes later |
| Generate.FedStarts | src/pipeline-tts.cpp:690-700 | what the talker is fed starts with the prompt rows |
| Generate.SamplesDrawApart | src/pipeline-tts.cpp:738-784 | frame t owns subsequences K*t .. K*t + K - 1, and no two samples of a run share a block of random bits |
| Generate.PushOne | src/pipeline-tts.cpp:788-802 | pushing a frame continues the run's stream or ends it with the stream's own outcome |
| Generate.FlushAll | src/pipeline-tts.cpp:867-885 | flushing ends the stream as the specification of the run does |
| Generate.Transpose | src/pipeline-tts.cpp:911-917 | the frame-major codes land in the K-major buffer the one-shot decode expects |
| Generate.Synthesize | src/pipeline-tts.cpp:629-940 | buffered, the audio is the one-shot decode of the reference frames; streamed, the client receives the stream of the reference frames, and of a run that ends badly all of it but at most the last block; the status follows from the two |
| Philox.XorUndone | src/philox.h:31-41 | exclusive or with the same word twice gives the word back |
| Philox.MultipliersInvert | src/philox.h:11-28 | both multipliers are invertible modulo 2^32 on the low product word, from either side |
| Philox.RoundInverts | src/philox.h:31-41 | a round is a bijection of the blocks for every key pair, with an explicit inverse |
| Philox.RoundWords | src/philox.h:22-41 | a round splits 0xCD9E8D57 * z and 0xD2511F53 * x: the low words go out as y and w, the high words under y and k0 as x and under w and k1 as z |
| Philox.RoundAfterRound | src/philox.h:44-76 | round n runs under the seed words raised n times by 0x9E3779B9 and 0xBB67AE85 |
| Philox.XorBit | src/philox.h:31-41 | bit i of the exclusive or is the sum of the bits i without carry |
| Philox.RoundsPermute | src/philox.h:44-76 | under every key any number of rounds permutes all 2^128 blocks |
| Philox.Philox4x32x10 | src/philox.h:44-76 | the unrolled code computes ten rounds with key words seed + i * step modulo 2^32 |
| Philox.DrawsDiffer | src/philox.h:96-105 | under one seed different 64-bit subsequences never give the same block |
| Philox.DrawSpelled | src/philox.h:78-105 | a draw is ten rounds over (ctr_lo, 0, low and high word of the subsequence) under the low and high word of the seed; its number times 2^32 is the first word plus one half |
| Philox.UniformFill | src/philox.h:96-105 | element k is the uniform number of subsequence start + k, strictly between 0 and 1, and nothing else is written |
| Sampler.ApplySuppress | src/sampling.h:28-41 | masks exactly the ids in [lo, hi) other than keep, for any bounds, and leaves the others as they are |
| Sampler.ApplyRepetitionPenalty | src/sampling.h:47-69 | a score of 0 or more whose id is in the history becomes the w with w * penalty equal to it, a negative one is multiplied, once however often the id occurs; with penalty > 1 every such nonzero score falls; all others stay |
| Sampler.ApplyTemperature | src/sampling.h:103-106 | every open logit becomes the x with x * temperature equal to it, masked ones stay masked |
| Sampler.ArgMax | src/sampling.h:94-98 | the greedy path returns the first of the greatest logits |
| Sampler.KthLargestUnique | src/sampling.h:110-114 | the top-k threshold is determined: only one value has fewer than k above it and k at or above it |
| Sampler.ApplyTopK | src/sampling.h:110-121 | an id stays open exactly when k is outside (0, V) or fewer than k ids score above it |
| Sampler.MaskTail | src/sampling.h:155-169 | along a sorted list the unmasked entries are the shortest non-empty prefix whose probability reaches top_p |
| Sampler.ApplyTopP | src/sampling.h:123-171 | what stays open is a minimal nucleus, in some order of falling probability, of the ids within 16 of the greatest logit |
| Sampler.TopPKeepsBest | src/sampling.h:123-171 | nothing top-p masks scored higher than anything it keeps |
| Sampler.TopPKeepsNear | src/sampling.h:127-145 | nothing is kept that scores more than 16 below another id |
| Sampler.TopPKeepsEnough | src/sampling.h:155-169 | the kept ids carry at least the share p of the mass, or every id within 16 of the greatest is kept |
| Sampler.TopPKeepsLittle | src/sampling.h:155-169 | without any one of several kept ids the rest falls short of the share p |
| Sampler.DrawnIsSoftmax | src/sampling.h:173-200 | for an exponential that turns sums into products the draw is that of the softmax of the logits themselves |
| Sampler.Accumulate | src/sampling.h:191-200 | returns the least id whose running mass reaches u times the whole; the fallback after the loop is never the answer |
| Sampler.DrawInterval | src/sampling.h:177-200 | an id is drawn for exactly the u in an interval as long as its softmax probability |
| Sampler.SampleTopKP | src/sampling.h:83-201 | greedy: first maximum, logits untouched; otherwise a draw from the filtered distribution with the uniform number of the given seed and subsequence |
| Sampler.SampledIsOpen | src/sampling.h:83-201 | the id returned was not masked on entry, and with top-k active fewer than k ids had a higher score |
| Sampler.SampledIsNear | src/sampling.h:83-201 | with top-p on, the id returned scores no more than 16 below any other at the given penalty and temperature |
| Sampler.PlainSampling | src/sampling.h:83-201 | with both filters off the draw is the softmax of the penalised logits at the temperature |
| Sampler.SuppressedNeverSampled | src/pipeline-tts.cpp:733-741 | a codebook-0 code is never in the suppressed range unless it is the end code, sampled or greedy |
| RvqFile.PackTakes | src/rvq-file.h:26-29 | or-ing a code in keeps the number spelled by bytes and accumulator, and the accumulator below 2^bits |
| RvqFile.PackEmits | src/rvq-file.h:30-34 | moving a byte out keeps the number |
| RvqFile.PackCodes | src/rvq-file.h:18-40 | writes ceil(N*b/8) bytes that spell the same number in base 256 as the masked codes do in base 2^b, never outside the buffer |
| RvqFile.PackedUnique | src/rvq-file.h:18-40 | a code list has exactly one packed form |
| RvqFile.UnpackCodes | src/rvq-file.h:42-59 | reads the base-2^b digits of the input's number, zeros once the input has run out |
| RvqFile.PackUnpack | src/rvq-file.h:18-59 | unpacking a packed list gives its codes back, low b bits in general and unchanged when in [0, 2^b) |
| RvqFile.ReadCodes | src/rvq-file.h:70-94 | the code count is inferred from the size; empty files and counts that are no multiple of K are refused |
| RvqFile.CountInferred | src/rvq-file.h:85-86 | the inferred count is right if and only if the padding is shorter than a code, and always for codes of 8 bits or more |
| RvqFile.WriteRead | src/rvq-file.h:63-111 | a written file of K*T codes reads back as those codes and T frames if and only if the padding is shorter than a code |
| RvqFile.ShortCodesMiscount | src/rvq-file.h:85-92 | one one-bit code is read back as eight |
| RvqEncode.ScoreIsDistance | src/quantizer-encode.h:203-216 | the scanned score differs from the squared distance by a term that does not depend on the centroid |
| RvqEncode.LoadNorms | src/quantizer-encode.h:155-163 | precomputes every centroid's squared norm |
| RvqEncode.Scan | src/quantizer-encode.h:204-221 | returns the first of the truly nearest centroids |
| RvqEncode.EncodeLayer | src/quantizer-encode.h:199-229 | every frame's code is its nearest centroid and its residual loses exactly that centroid |
| RvqEncode.Conserved | src/quantizer-encode.h:190-232 | after any number of layers a frame is the sum of its chosen centroids plus its residual, and the residual's energy is the reconstruction error |
| RvqEncode.GreedyIsBest | src/quantizer-encode.h:203-225 | no other choice at a layer leaves less energy behind |
| RvqEncode.EncodesUnique | src/quantizer-encode.h:203-225 | the codes of a frame are unique |
| RvqEncode.SideLoop | src/quantizer-encode.h:190-232 | all layers over all frames: codes and residuals as specified, codes codebook-major |
| RvqEncode.Linear | src/quantizer-encode.h:172-185 | output o of a frame is its inner product with weight row o |
| RvqEncode.FrameCodesUnique | src/quantizer-encode.h:237-257 | a frame has one code list over both sides |
| RvqEncode.FrameCodesSpelled | src/quantizer-encode.h:237-257 | first the semantic codebooks, then the acoustic ones: each code is a centroid nearest to what the codes before it leave of its side's projection |
| RvqEncode.EncodeCpu | src/quantizer-encode.h:237-257 | codes[k*T + t] is frame t's choice at codebook k, semantic side first |
| PromptKey.DecimalRead | src/prompt-builder.h:316-319 | a decimal number reads back to its value and holds no sign or separator |
| PromptKey.AppendInts | src/prompt-builder.h:313-321 | appends label, values and separators |
| PromptKey.IntsDetermined | src/prompt-builder.h:313-321 | a list and the text behind it are determined by the key text |
| PromptKey.KeyInjective | src/prompt-builder.h:323-333 | equal keys mean equal instruction, role and codec id lists |
| PromptBuilder.PrefixCache.Find | src/prompt-builder.h:335-342 | finds the first entry under the key, none only when there is none |
| PromptBuilder.PrefixCache.Store | src/prompt-builder.h:344-365 | an entry under the same key is replaced in place; a new one goes behind the newest max - 1 of the others; with a limit of 0 or no rows nothing changes |
| PromptBuilder.PrefixCache.StoreKeeps | src/prompt-builder.h:344-365 | keys stay unique, the limit holds and every entry stays what an uncached build computes |
| PromptBuilder.CachedPrefix | src/prompt-builder.h:585-645 | hit or miss, the same prefix rows, and a hit has the expected number of them |
| PromptBuilder.BuildStandard | src/prompt-builder.h:650-671 | text, end of text and final row over their codec rows |
| PromptBuilder.BuildIcl | src/prompt-builder.h:672-745 | the text stream cut or padded to the codec stream and summed, the rest kept for the overlay |
| PromptBuilder.Build | src/prompt-builder.h:367-779 | with any valid cache the prompt is the uncached one and the cache stays valid, so over any sequence of builds the cache cannot be observed; the rows total T_ctx in both layouts |
| PromptBuilder.RefusedExactly | src/prompt-builder.h:367-440 | a request is refused exactly for a named speaker beside a reference voice, a reference text without that voice, and texts with nothing between their wrapping tokens |
| PromptBuilder.TextPrefixSpelled | src/prompt-builder.h:585-645 | a prompt starts with the instruction and the three role tokens |
| PromptBuilder.CodecPrefixSpelled | src/prompt-builder.h:585-645 | then follow the thinking tokens around the language, or those for none, and the speaker by id or row, over text padding, and the codec padding over the begin of text |
| PromptBuilder.StandardSpelled | src/prompt-builder.h:650-671 | then the utterance without its wrapping tokens and the end of text over codec padding, and text padding over the codec begin |
| PromptBuilder.TextAtSpelled | src/prompt-builder.h:679-745 | the text stream of a prompt in context: the reference text, the utterance, both unwrapped, end of text, and padding |
| PromptBuilder.TextConserved | src/prompt-builder.h:679-745 | in context mode position j of the text stream is in prompt row h + j while the block lasts and in the overlay of frame j - T after it, padding only behind the end: no row lost, repeated or reordered |
| PromptBuilder.TextReachesTalker | src/pipeline-tts.cpp:824-832 | what the talker is fed after frame t carries position T + t of that stream |
| Resample.Gcd | src/audio-resample.h:36-43 | the loop returns the greatest common divisor |
| Resample.TargetReduced | src/audio-resample.h:148-155 | the output length computed from the rates equals the one computed from the reduced rates |
| Resample.TargetSpelled | src/audio-resample.h:148-155 | the output is the shortest that lasts at least as long as the input |
| Resample.EnoughSamples | src/audio-resample.h:103-105 | the strided convolution yields at least the wanted samples, so the minimum is the wanted length |
| Resample.ReadsInBounds | src/audio-resample.h:98-115 | every strided read stays inside the padded buffer |
| Resample.ApplyMono | src/audio-resample.h:89-120 | fills exactly the channel's slots, slot t with phase t mod newf of the kernel over the input around frame t / newf |
| Resample.ResampledSpelled | src/audio-resample.h:98-118 | output q * newf + j is the sum of the products of phase j of the kernel with the input from width samples before q * orig on, silence outside |
| Resample.DelayCommutes | src/audio-resample.h:107-118 | delaying the input by orig samples delays the output by newf |
| Resample.AudioResample | src/audio-resample.h:128-177 | refuses exactly empty or senseless requests, copies at equal rates, and otherwise fills every slot of every channel, ceil(srOut*n/srIn) per channel |
| Resample.ChannelSpelled | src/audio-resample.h:160-175 | sample t of channel ch of the planar output comes from channel ch of the planar input |
| Wav.SampleRoundTrip | src/audio-io.h:195-290 | a float word comes back exactly, a 16- or 24-bit level within two steps of the clamped sample, anything not finite as silence |
| Wav.LevelSpelled | src/audio-io.h:244-270 | a PCM level is the sample clamped to [-1, 1] on the full scale, cut off towards zero, and 0 for what is not finite |
| Wav.WriteHeader | src/audio-io.h:203-229 | the 44 header bytes with all fields, for file and stream alike |
| Wav.HeaderSpelled | src/audio-io.h:203-229 | the header field by field, little-endian: one channel, format tag 1 or 3, two, three or four bytes a sample |
| Wav.Encode | src/audio-io.h:235-311 | header and one field per sample, in all three formats |
| Wav.HeaderParsed | src/wav.h:60-85 | the reader finds format, channel count, rate and width where the writer put them |
| Wav.ReadSpelled | src/wav.h:11-38 | fields are read least significant byte first |
| Wav.DecodedSpelled | src/wav.h:97-155 | 16- and 24-bit fields are two's complement on the full scale 32768 and 8388608, float words stay as they are |
| Wav.FrameSpelled | src/wav.h:97-155 | a frame is its first two samples, a mono one its only sample twice |
| Wav.FramesSpelled | src/wav.h:97-155 | frame t stands t strides behind the start of the data |
| Wav.FmtSpelled | src/wav.h:60-85 | tag, channels, rate and bits at their places; an extensible chunk counts as the format its sub-format names |
| Wav.ChunkSizeSpelled | src/wav.h:58-67 | a chunk's size is its little-endian field, cut off at the end of the buffer |
| Wav.WalkStep | src/wav.h:58-183 | a data chunk behind a format ends the walk, with no result for a format that is none of the three; any other chunk is skipped, with a pad byte when its size is odd |
| Wav.ReadWav | src/wav.h:40-183 | for every byte string the chunk walk ends, stays in bounds and finds what the specification of the walk finds |
| Wav.WriteRead | src/wav.h:40-183 | reading what was written gives rate and samples back whenever the data size covers them |
| Wav.FilesAndStreamsRead | src/audio-io.h:354-393 | which holds for files below 2^31 data bytes and for live streams announcing 0x7FFFFFFF |
| Wav.BodyJoins | src/audio-io.h:418-459 | consecutive stream writes make one body |

## Left out

- Talker.ExecDecode: the wrap branch for n_past >= W is not modelled; the pipeline's guard never lets a step reach it (`src/pipeline-tts.cpp:693-700`).
- Talker.Prefill: allocation and compute failures of the backend are not modelled; a pass that starts succeeds. The same holds for the decode and predictor passes.
- Generate.Synthesize: starts from a built prompt; the wall-clock counters, dumps and log lines of the same function have no counterpart, the cancel poll is a function of the step, and a failed allocation of the result buffer is not modelled.
- CodecLocality.ChunkExact: takes a decoder stage to be a function of its window's contents. For the transformer this is the position-invariance of rotary attention in exact arithmetic: positions restart at 0 in every slice.
- CodecRuns.StreamIsOneShot: "every backend" is every function of the slice, its codebook count and its length; a backend that fails once and succeeds when asked again for the same slice is outside the model.
- CodecStream.DecoderStream.EmitOne: assumes the backend returns at least the context's samples when it returns any, as the original does when it subtracts; a shorter answer is treated like no new samples.
- CodecStream.DecoderStream.PushFrame: integer overflow of the growing block size is not modelled; the cap keeps it small.
- BpeEncode.BpeEncodeText: takes text whose announced continuation bytes are all present (true of all valid UTF-8) and specials that are non-empty and start a character; on truncated input the original may advance past the end of the text.
- BpePreTokenize.Gpt2PreTokenize: what the scanner does is modelled, not the regular expression in its comment, which it simplifies on purpose.
- SplitText.SplitIntoPieces: requires target >= 1; for 0 see CutMakesProgress.
- Sampler.SampleTopKP: requires a positive repetition penalty, and an unmasked logit when the temperature is positive; with neither the original divides by zero or takes exp of a difference of infinities. Reals instead of floats: the uniform number of a block whose first word is close to 2^32 rounds to 1.0 in single precision.
- Sampler.ApplyTopP: requires an unmasked logit; with none the original takes exp of a difference of infinities.
- Sampler.NthElement: stands for std::nth_element and SortDescending for std::sort; the library's algorithms are not modelled, and which of several equal entries comes first is left open.
- RvqFile.PackCodes: takes 1 to 31 bits per code, the widths for which the original's mask is defined; or-ing into the accumulator is a defined bitwise or, masks and shifts are quotient and remainder by powers of two.
- RvqEncode.SideLoop: frames are rows of a list instead of strides in one buffer; the code buffer's layout is kept.
- PromptBuilder.Build: tokenization, language, speaker and dialect look-up are inputs, and a named speaker is taken to have a non-negative id; the text and codec rows are functions of one id each.
- PromptBuilder.PrefixCache.Store: prefix rows are rows of a list instead of one flat buffer.
- Resample.AudioResample: kernel values are a parameter; the length is exact, where the original computes it in double precision; channel slices are taken as values.
- Wav.Encode: the data size is exact, where the original computes it in int (`src/audio-io.h:237`, `:258`, `:279`), which overflows from 2^31 data bytes on.
- Wav.ReadWav: sample offsets are exact, where the original computes t * width in int (`src/wav.h:100`, `:123`, `:146`), which overflows for data above 2^31 bytes; the IEEE value of a float word is not modelled, words are compared; a data chunk of no samples is read as an empty recording, where the original depends on what malloc(0) returns.
- Float rounding, exp, sine and the resampler and mel kernels: reals and an abstract increasing exp instead.
- Graph building, schedulers, backends, weight loading, GGUF files and memory mapping: foreign interfaces.
- File, socket and HTTP handling, the command-line tools, the web page and the Python server: input and output around the modelled functions.
- The speaker encoder, the audio encoder's transformer and the mel front end: tensor code without host logic.
- Name tables of the converter and the quantiser's policy: string tables that would only add easy members.
- Backend reference counts and the unwinding of partly loaded pipelines: tied to foreign resources.
