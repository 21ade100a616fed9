# A verified model of the recorder and player code

This Dafny project models four components of the repository and proves what they do:

* **The IMA/DVI ADPCM codec** (`Adpcm*.dfy`). `AdpcmPredictor` has the tables, the nibble-driven
  predictor and the greedy choice; `AdpcmSearch` the lookahead search; `AdpcmLayout` the block
  format; `AdpcmTrace` what the encoder does to one channel of a block; `AdpcmCodec` and
  `AdpcmDecoder` the encoder context and the decoder in place, over buffers; `AdpcmRoundTrip` and
  `AdpcmStereo` what the two do together and channel by channel; `AdpcmBounds` and `AdpcmShaping`
  how far the output can be from the input; `AdpcmRules` and `AdpcmChoice` say in plain arithmetic what
  the tables, the bytes of a block and the choice of a nibble come to. The algorithm is the DVI4 one
  of section 4.5.1 of RFC 3551, with the low nibble first.
* **The option parser** (`Optparse*.dfy`). `OptparseSpec` says what one call does to the argument
  vector; `OptparseScan` that a run of calls is one left-to-right scan; `OptparseDoc` what a command
  line means, with no parser state, and exactly when the parser agrees; `OptparseExact` when it does for
  a single line; `OptparseFlat` runs with permutation off; `OptparseTable` the compilation of
  long-option tables; `OptparseForms` what each form of argument reports, character by character;
  `Optparse` the parser itself, recursive and in place.
* **Morse code** (`Morse*.dfy`). `MorseCode` is the code book, `MorseText` the sender's translation
  and the receiver's parser, `MorseDecision` the automaton that turns frame energies into tokens,
  `MorseLink` the whole way from keyed strokes to text; `MorsePatterns` and `MorseCounts` say what the
  code book and the decisions come to. The letters, digits and marks are those of
  section 1.1 of Recommendation ITU-R M.1677-1.
* **PCI configuration space** (`Pci*.dfy`). `PciConfig` has the tags, addresses and
  read-modify-write accesses, `PciBytes` the byte memory they refine, `PciWindows` the hardware
  addresses and the refusals.

Each method that changes state is proved equal to a function of the old state; what the source
promises is then proved about that function, for all inputs.

## Where the code and its promises differ

* An unknown letter after a flag in the same group (`-ax`) leaves `subopt` set, so the next group is
  read from its middle (`OptparseDoc.StaleExample`) or past its end (`OptparseDoc.StalePastEnd`).
  `OptparseScan.RunIsScan` describes this exactly, reads past an argument included (as `None`).
  A command line is read as documented when no short group meets a `subopt` left set (`Safe`), which
  is exactly when every group is read from its first letter (`OptparseDoc.SafeIsFromFirst`), and
  so whenever its documented reading has no error (`OptparseDoc.ErrorFreeIsDocumented`). A letter
  read by mistake can also happen to report the same (`OptparseDoc.LuckyStale`): for options without
  required arguments a given line is read as documented if and only if every group that meets a
  stale `subopt` repeats its beginning from there on, up to an unknown letter
  (`OptparseExact.UnnoticedIsExact`). For all options, a line has no unknown letter after a flag
  (`Clean`) if and only if every beginning of it, followed by one more flag, is read as documented
  (`OptparseDoc.CleanIsExact`).
* In the option string compiled from a table, short names are cut to one byte, a byte of 0 ends the
  string, and a colon joins the colons of the name before it. `OptparseTable.CompiledLookup` says
  what every letter then means, for every table; `OptparseTable.CompilationFaithful` that this is
  what the table says if and only if no short name is a colon and, for each entry, the first entry of
  the same low byte has the kind of the first one of that very name, stray colons included
  (`SaysTheSame`). Short names of one byte other than a colon are enough
  (`OptparseTable.PlainIsFaithful`).
* Six-mark symbols other than `@` are printed with a `~` behind them, `&` is shown as a V, sent with the code of `H`, and
  characters without a code are dropped. A text comes back unchanged if and only if it is `Stable`:
  characters of the round-trip alphabet, and six-mark symbols that already have their `~`
  (`MorseText.TextRoundTrip`). Texts of words all of whose characters have a code, which is what can
  be keyed, are stable exactly when every character is in the round-trip alphabet.
* The comment in the source says that the *closest* initial index is stored. It is never off by more
  than one, and it is the closest exactly when the delta is not just under the midpoint of two
  neighbouring steps (`AdpcmBounds.InitialIndexNearest`, `AdpcmBounds.SevenIsNotNearest`).
* With static noise shaping and no lookahead the carried error is bounded within a block, but over
  blocks it can grow: by at most 4099 a block and a constant (`AdpcmShaping.ErrorGrowth`), and on some
  input by as much (`AdpcmShaping.ErrorDriftsOverBlocks`). The quantizer's 32-bit arithmetic is safe
  for the first 130736 blocks of any input (`AdpcmShaping.NoOverflow`) and overflows on some input
  after 130931 (`AdpcmShaping.Overflows`); which of the 195 block counts in between is the first
  unsafe one is open.
* A configuration word at or above 0x100 is read back after a write only if the register's bits 8
  to 11 are already set in the tag (`PciBytes.WordReadBack`). The dedicated byte and halfword reads
  wrap at 256 (`PciBytes.NarrowReadsWrap`); they agree with the general one, whatever the words,
  exactly at the plain offsets below 0x100 (`PciBytes.NarrowReadsExact`).

## Model

| member | source | states |
|---|---|---|
| AdpcmPredictor.Magnitude | ls2kdev_record/applications/vs1003/adpcm-xq/adpcm-lib.c:130-137 | the magnitude bits say how many whole quarter steps fit the distance, at most seven |
| AdpcmPredictor.StepGrowth | ls2kdev_record/applications/vs1003/adpcm-xq/adpcm-lib.c:29-42 | every step of the table is larger than the one before, by at most a quarter |
| AdpcmRules.StepsGrowByTenths | ls2kdev_record/applications/vs1003/adpcm-xq/adpcm-lib.c:29-42 | from index 8 on step i is the integer part of 16 * 1.1^(i - 8), cut to 32767 at index 88; before that it is i + 7 |
| AdpcmRules.AdvanceRule | ls2kdev_record/applications/vs1003/adpcm-xq/adpcm-lib.c:385-395 | for every state and nibble the value moves by the sum of the truncated parts of the step the magnitude bits stand for, down from nibble 8 on, and the index by -1 or by 2 * (magnitude - 3), both cut to their ranges; and nothing else is such a move |
| AdpcmRules.FourThenFour | ls2kdev_record/applications/vs1003/adpcm-xq/adpcm-lib.c:45-48 | from zero, two nibbles of magnitude four give 7 and 17, over index 2 |
| AdpcmRules.GreedyRule | ls2kdev_record/applications/vs1003/adpcm-xq/adpcm-lib.c:130-137 | the greedy nibble is the number of quarter steps in the distance, at most seven, plus 8 for a target below the value |
| AdpcmSearch.MinimumError | ls2kdev_record/applications/vs1003/adpcm-xq/adpcm-lib.c:121-189 | the pruned search returns the cost of the exhaustive 16-way search of the window and reports its nibble, the greedy one on a tie, for every quantizer, state, depth and stride |
| AdpcmSearch.BestIsLowerBound | ls2kdev_record/applications/vs1003/adpcm-xq/adpcm-lib.c:149-189 | no path of nibbles over the window costs less than the search's result |
| AdpcmSearch.BestIsAttained | ls2kdev_record/applications/vs1003/adpcm-xq/adpcm-lib.c:121-189 | some path that starts with the reported nibble costs exactly the search's result |
| AdpcmSearch.SearchNeverLosesToGreedy | ls2kdev_record/applications/vs1003/adpcm-xq/adpcm-lib.c:121-156 | the result never exceeds the cost of quantizing every sample of the window greedily |
| AdpcmChoice.LookaheadMinimises | ls2kdev_record/applications/vs1003/adpcm-xq/adpcm-lib.c:121-227 | with a lookahead of L, for every shaping mode, the encoder's nibble begins nibbles for the sample and the next min(L, remaining - 1) of its channel whose sum of squared errors is the least of all choices that end with the greedy nibble |
| AdpcmChoice.TiesGoToGreedy | ls2kdev_record/applications/vs1003/adpcm-xq/adpcm-lib.c:158-185 | another nibble than the greedy one is chosen only if strictly better, and it is then the smallest of the best |
| AdpcmChoice.ScaledRounds | ls2kdev_record/applications/vs1003/adpcm-xq/adpcm-lib.c:201-209 | the shift by ten rounds to the nearest integer, half way up |
| AdpcmChoice.DynamicRule | ls2kdev_record/applications/vs1003/adpcm-xq/adpcm-lib.c:199-219 | dynamic shaping: which way the weight moves, the share of the error taken off the target for every weight, and that a negative share never hands the error straight back |
| AdpcmChoice.ErrorAfterSample | ls2kdev_record/applications/vs1003/adpcm-xq/adpcm-lib.c:221-240 | the error a channel is left with in each of the three modes, and that nothing else changes |
| AdpcmLayout.BlockAccepted | ls2kdev_record/applications/vs1003/adpcm-xq/adpcm-lib.c:362-377 | a block of n channels and c chunks has 4n(1+c) bytes, passes the decoder's header check, and the decoder finds c chunks in it |
| AdpcmLayout.LayoutRoundTrip | ls2kdev_record/applications/vs1003/adpcm-xq/adpcm-lib.c:254-418 | laying out any headers and nibbles as an interleaved block and reading a channel back gives its header and its nibbles, in order |
| AdpcmTrace.Lockstep | ls2kdev_record/applications/vs1003/adpcm-xq/adpcm-lib.c:224-237 | after any number of nibbles the decoder's predictor equals the encoder's, for every quantizer, lookahead, shaping mode and starting state |
| AdpcmTrace.BlockLockstep | ls2kdev_record/applications/vs1003/adpcm-xq/adpcm-lib.c:245-421 | the same through the bytes of a block with any number of channels |
| AdpcmTrace.StaticShapingConserves | ls2kdev_record/applications/vs1003/adpcm-xq/adpcm-lib.c:221-240 | under static shaping the sum of output minus input over any number of samples of a block is the final minus the initial error |
| AdpcmTrace.BlocksConserve | ls2kdev_record/applications/vs1003/adpcm-xq/adpcm-lib.c:221-240 | the same over any number of blocks, each of which restarts the predictor from its first sample |
| AdpcmCodec.ShapeSample | ls2kdev_record/applications/vs1003/adpcm-xq/adpcm-lib.c:199-222 | noise shaping of one sample, statement by statement, gives the target and the channel fields of the `Shape` function in all three modes |
| AdpcmCodec.Context.constructor | ls2kdev_record/applications/vs1003/adpcm-xq/adpcm-lib.c:69-89 | a fresh context has zeroed channels, with the initial index of each used channel, and of no other, set from its delta; the search for it never leaves the step table |
| AdpcmCodec.Context.EncodeSample | ls2kdev_record/applications/vs1003/adpcm-xq/adpcm-lib.c:191-243 | encoding one sample updates its channel as one step of the trace on the channel's remaining samples and leaves the other channel alone |
| AdpcmCodec.Context.EncodeByte | ls2kdev_record/applications/vs1003/adpcm-xq/adpcm-lib.c:260-265 | two samples become one byte, the earlier one in the low nibble |
| AdpcmCodec.Context.EncodeQuad | ls2kdev_record/applications/vs1003/adpcm-xq/adpcm-lib.c:258-266 | eight samples of a channel become four bytes at the output position, and nothing before or after them changes |
| AdpcmCodec.Context.EncodeRow | ls2kdev_record/applications/vs1003/adpcm-xq/adpcm-lib.c:256-269 | one row of a block: a chunk of each channel in turn |
| AdpcmCodec.Context.EncodeChunks | ls2kdev_record/applications/vs1003/adpcm-xq/adpcm-lib.c:245-271 | appending the chunks to the headers yields the encoded block of the channels' streams, and leaves every channel at the end of its trace |
| AdpcmCodec.Context.WriteHeaders | ls2kdev_record/applications/vs1003/adpcm-xq/adpcm-lib.c:306-332 | the headers record the first sample and the index of each channel, and every predictor restarts there |
| AdpcmCodec.Context.EncodeBlock | ls2kdev_record/applications/vs1003/adpcm-xq/adpcm-lib.c:288-338 | for every state, input and count the block has exactly 4 * channels * (1 + (count-1)/8) bytes (none for 0), is the encoding of the channels' streams, and the rest of the buffer and of the context is untouched; only samples up to composite sample 8 * ((count-1)/8) are asked for, so no lookahead reads beyond it |
| AdpcmRules.EncodedBytes | ls2kdev_record/applications/vs1003/adpcm-xq/adpcm-lib.c:311-329 | in the bytes of an encoded block every channel's header is its first sample, low byte first, the index it was left with and a zero, and the chosen nibbles follow in pairs, the earlier in the low half |
| AdpcmRules.StreamSamples | ls2kdev_record/applications/vs1003/adpcm-xq/adpcm-lib.c:256-269 | a channel encodes the sample of its place in every composite sample taken in, in order, from its first sample and the index and error it was left with |
| AdpcmRoundTrip.DecodesToEncoderTrace | ls2kdev_record/applications/vs1003/adpcm-xq/adpcm-lib.c:288-421 | whatever state a context is in, the block it encodes is accepted and wholly consumed, and decodes to each channel's first sample followed by exactly the values its encoder went through, ending with the one it is left with |
| AdpcmRoundTrip.BlockJoinsRun | ls2kdev_record/applications/vs1003/adpcm-xq/adpcm-lib.c:288-338 | a block encoded by a context takes each channel one block further in its run, so the results about runs of blocks are about contexts |
| AdpcmRoundTrip.EncodeAndDecode | ls2kdev_record/applications/vs1003/adpcm-xq/adpcm-lib.c:288-421 | encoding a block into a buffer and decoding it from there gives, for every channel, the first sample, the values its encoder went through, and at the end the one the context holds; nothing beyond is written |
| AdpcmRoundTrip.UnreadTail | ls2kdev_record/applications/vs1003/adpcm-xq/adpcm-lib.c:251-270 | inputs that agree up to composite sample 8 * ((count-1)/8), of whatever lengths from there on, have the same streams to encode |
| AdpcmRoundTrip.StereoIsTwoMonos | ls2kdev_record/applications/vs1003/adpcm-xq/adpcm-lib.c:254-270 | each channel's bytes in a block are the block a one-channel context in the same state makes of that channel's samples, and both channels end in the same state |
| AdpcmStereo.EncodeByChannel | ls2kdev_record/applications/vs1003/adpcm-xq/adpcm-lib.c:254-270 | taking an encoded block apart gives each channel's own encoding |
| AdpcmStereo.EncodeIsInterleaved | ls2kdev_record/applications/vs1003/adpcm-xq/adpcm-lib.c:254-270 | an encoded block is the interleaving of its channels' one-channel blocks |
| AdpcmStereo.DecodeByChannel | ls2kdev_record/applications/vs1003/adpcm-xq/adpcm-lib.c:365-418 | decoding a channel of any accepted block is decoding that channel's bytes as a one-channel block |
| AdpcmDecoder.DecodeLow | ls2kdev_record/applications/vs1003/adpcm-xq/adpcm-lib.c:385-395 | the masks of the low half of a byte advance the predictor by its low nibble |
| AdpcmDecoder.DecodeHigh | ls2kdev_record/applications/vs1003/adpcm-xq/adpcm-lib.c:398-408 | the masks of the high half advance it by the high nibble |
| AdpcmDecoder.SlotsAreDistinct | ls2kdev_record/applications/vs1003/adpcm-xq/adpcm-lib.c:396-417 | different samples or channels never share an output slot |
| AdpcmDecoder.SlotIsInterleaved | ls2kdev_record/applications/vs1003/adpcm-xq/adpcm-lib.c:396-417 | the slot of sample k of a channel is k * channels + channel |
| AdpcmDecoder.DecodeQuad | ls2kdev_record/applications/vs1003/adpcm-xq/adpcm-lib.c:384-412 | four bytes give the channel's next eight samples in their slots, and no other slot changes |
| AdpcmDecoder.DecodeRow | ls2kdev_record/applications/vs1003/adpcm-xq/adpcm-lib.c:382-417 | one row extends every channel's output by eight samples |
| AdpcmDecoder.DecodeChunks | ls2kdev_record/applications/vs1003/adpcm-xq/adpcm-lib.c:379-418 | all rows together give every sample of every channel, and nothing beyond the last one is written |
| AdpcmDecoder.DecodeBlock | ls2kdev_record/applications/vs1003/adpcm-xq/adpcm-lib.c:356-421 | short input: 0 and no write; a refused header: 0, with the first samples up to it stored; otherwise 1 + 8 * chunks samples per channel, all of them right, nothing else written, and every one of the channels * (1 + 8 * chunks) slots stored to exactly once |
| AdpcmRules.DecodedRule | ls2kdev_record/applications/vs1003/adpcm-xq/adpcm-lib.c:356-421 | what the decoder outputs, from the bytes alone: each channel's first value is its header's signed 16 bits, low byte first, and each next one, at its interleaved place, is where the next nibble of the channel's bytes, low half first, moves the one before |
| AdpcmRules.AcceptedRule | ls2kdev_record/applications/vs1003/adpcm-xq/adpcm-lib.c:362-370 | a block is accepted if and only if it has its headers, each with an index of at most 88 and a zero byte |
| AdpcmDecoder.StoresOnce | ls2kdev_record/applications/vs1003/adpcm-xq/adpcm-lib.c:365-418 | the stores of the headers and of all rows, in their order, hit every slot of the output once and no other |
| AdpcmBounds.QuantizationBound | ls2kdev_record/applications/vs1003/adpcm-xq/adpcm-lib.c:123-147 | a sample in reach (distance below two steps) is reproduced within (step + 17) / 8, clipping included |
| AdpcmBounds.OverloadProgress | ls2kdev_record/applications/vs1003/adpcm-xq/adpcm-lib.c:229-237 | an overloaded sample moves the output towards the input by at least 11 without overshoot and raises the index by 8, saturating at 88 |
| AdpcmBounds.OverloadIsShort | ls2kdev_record/applications/vs1003/adpcm-xq/adpcm-lib.c:229-237 | from any state at most eleven samples of a constant input in a row are overloaded |
| AdpcmBounds.ReachLocks | ls2kdev_record/applications/vs1003/adpcm-xq/adpcm-lib.c:229-237 | once a constant input is in reach the next output is less than one of its own steps away |
| AdpcmBounds.StaysLocked | ls2kdev_record/applications/vs1003/adpcm-xq/adpcm-lib.c:229-237 | from then on it stays so, and the index falls by one with every sample down to 0 |
| AdpcmBounds.ConstantInputConverges | ls2kdev_record/applications/vs1003/adpcm-xq/adpcm-lib.c:229-237 | from any state a constant input is reproduced within one, at the smallest step, from sample 103 on for ever |
| AdpcmBounds.ErrorOfOneStays | ls2kdev_record/applications/vs1003/adpcm-xq/adpcm-lib.c:229-237 | the bound is met: an error of one at the smallest step is never corrected |
| AdpcmBounds.PlainEncoderHolds | ls2kdev_record/applications/vs1003/adpcm-xq/adpcm-lib.c:191-243 | these results are about the encoder: without lookahead and shaping it runs the predictor this way |
| AdpcmBounds.InitialIndexNearest | ls2kdev_record/applications/vs1003/adpcm-xq/adpcm-lib.c:79-86 | the initial step is at most one further from the delta than any other step, and is the nearest if and only if the delta is not just under a midpoint |
| AdpcmBounds.SevenIsNotNearest | ls2kdev_record/applications/vs1003/adpcm-xq/adpcm-lib.c:79-86 | a delta of 7 gets step 8 although 7 is a step |
| AdpcmShaping.EncoderIsShapedRun | ls2kdev_record/applications/vs1003/adpcm-xq/adpcm-lib.c:221-240 | the encoder with static shaping and no lookahead is the run that the bounds and the drift below are about |
| AdpcmShaping.ErrorIsBoundedInBlock | ls2kdev_record/applications/vs1003/adpcm-xq/adpcm-lib.c:221-240 | over any input and length the error grows by at most twelve full-scale samples and 4099 over where the block began, or over 2^17 if that is more; from a fresh context it stays below 2^20 |
| AdpcmShaping.ErrorGrowth | ls2kdev_record/applications/vs1003/adpcm-xq/adpcm-lib.c:221-240 | over any blocks of any lengths it grows by at most twelve full-scale samples and 4099 for each block |
| AdpcmShaping.NoOverflow | ls2kdev_record/applications/vs1003/adpcm-xq/adpcm-lib.c:123-137 | from a fresh context the quantizer's shifted distance fits 32 bits throughout the first 130736 blocks of any input |
| AdpcmShaping.ErrorDriftsOverBlocks | ls2kdev_record/applications/vs1003/adpcm-xq/adpcm-lib.c:221-240 | for every limit some number of nine-sample blocks, one sample at the bottom of the range and eight at the top, takes the error below it |
| AdpcmShaping.EncoderDrifts | ls2kdev_record/applications/vs1003/adpcm-xq/adpcm-lib.c:221-240 | those blocks are what the encoder, its error carried over from block to block, makes of that input |
| AdpcmShaping.Overflows | ls2kdev_record/applications/vs1003/adpcm-xq/adpcm-lib.c:123-137 | after 130931 or more of those blocks the next one's first distance does not fit |
| OptparseSpec.StepPermutes | ls2kdev_record/packages/optparse-v1.0.0/optparse.c:148-305 | every call, whatever it returns, short or long, permuting or not, moves the arguments it consumes, at most two, in front of the non-options it skipped and keeps the order of everything; optind never leaves 1..argc |
| OptparseSpec.StepProgress | ls2kdev_record/packages/optparse-v1.0.0/optparse.c:148-305 | a call that returns an option, permuting or not, consumes an argument or advances inside the group it stopped at, with argv unchanged |
| OptparseForms.Classes | ls2kdev_record/packages/optparse-v1.0.0/optparse.c:35-48 | the class of every argument by its characters |
| OptparseForms.DashDashEnds | ls2kdev_record/packages/optparse-v1.0.0/optparse.c:160-164 | for both parsers, `--` behind plain arguments ends the run with no option reported, is the one argument consumed, and everything behind it, options included, is left behind the plain arguments |
| OptparseForms.PlainOnly | ls2kdev_record/packages/optparse-v1.0.0/optparse.c:165-179 | plain arguments alone are left as they are, with nothing reported |
| OptparseForms.OptstringRule | ls2kdev_record/packages/optparse-v1.0.0/optparse.c:59-70 | a letter with no colon behind its first occurrence is a flag, with one takes a value, with two may have one |
| OptparseForms.ShortForms | ls2kdev_record/packages/optparse-v1.0.0/optparse.c:180-232 | what a letter of a group reports and consumes, by the colons behind it in the option string, what stands behind it in the argument, and the next argument: value attached, value next, missing, optional, flag, unknown |
| OptparseForms.FlagGroup | ls2kdev_record/packages/optparse-v1.0.0/optparse.c:195-205 | flags that share a dash are reported one by one and the argument is consumed |
| OptparseForms.FlagsRun | ls2kdev_record/packages/optparse-v1.0.0/optparse.c:148-234 | a whole command line with such a group among plain arguments and `--` |
| OptparseForms.LongWithValue | ls2kdev_record/packages/optparse-v1.0.0/optparse.c:275-292 | `--name=value` reports the first entry of that name with the value, also an empty one, or that it takes none |
| OptparseForms.LongAlone | ls2kdev_record/packages/optparse-v1.0.0/optparse.c:293-301 | `--name` reports no value, the next argument, which it consumes, or that one is missing |
| OptparseForms.LongUnknown | ls2kdev_record/packages/optparse-v1.0.0/optparse.c:304-304 | a name that no entry has is reported with all that stands behind the dashes |
| OptparseForms.LongRun | ls2kdev_record/packages/optparse-v1.0.0/optparse.c:236-305 | a whole command line with a long option and its value among plain arguments and `--` |
| OptparseForms.ShortInLong | ls2kdev_record/packages/optparse-v1.0.0/optparse.c:116-136 | the long parser reports a short option as the short one does, with the table index filled in |
| OptparseForms.LastShortRule | ls2kdev_record/packages/optparse-v1.0.0/optparse.c:127-132 | that index is of the last entry of the short name, or -1 |
| OptparseScan.RunIsScan | ls2kdev_record/packages/optparse-v1.0.0/optparse.c:148-305 | from every position, calling until -1 reports the events of one left-to-right scan of the original arguments and leaves argv as consumed arguments, skipped non-options, then the rest after `--`, each in order, with optind at the non-options; it reads outside an argument exactly when the scan does |
| OptparseFlat.FlatRunIsScan | ls2kdev_record/packages/optparse-v1.0.0/optparse.c:148-305 | with permutation off, a full run from any position reports the scan up to the first non-option, leaves argv as it was and optind at that argument, and reads outside an argument exactly when that scan does |
| OptparseFlat.FlatIsBeginning | ls2kdev_record/packages/optparse-v1.0.0/optparse.c:148-305 | those events and consumed arguments are the first ones of the run with permutation on |
| OptparseDoc.ScanGroup | ls2kdev_record/packages/optparse-v1.0.0/optparse.c:180-232 | a group of letters is reported as documented: flags one by one, then a value, an error, or an unknown letter that ends the group |
| OptparseDoc.CarryMeaning | ls2kdev_record/packages/optparse-v1.0.0/optparse.c:186-200 | subopt is left set exactly when an unknown letter follows nothing but flags |
| OptparseDoc.SafeIsFromFirst | ls2kdev_record/packages/optparse-v1.0.0/optparse.c:180-232 | no short group meets a subopt left set if and only if, call by call, the parser starts every short option at its first letter |
| OptparseDoc.ScanIsDoc | ls2kdev_record/packages/optparse-v1.0.0/optparse.c:148-305 | a command line on which no short group meets a subopt left set is read as documented, and never outside an argument |
| OptparseDoc.FullRunIsDocumented | ls2kdev_record/packages/optparse-v1.0.0/optparse.c:148-305 | on such a command line a full run reports the documented events and leaves the documented partition of argv |
| OptparseDoc.ErrorFreeIsDocumented | ls2kdev_record/packages/optparse-v1.0.0/optparse.c:148-305 | the same for every command line whose documented reading has no error, with no condition on its letters |
| OptparseDoc.ErrorFreeIsClean | ls2kdev_record/packages/optparse-v1.0.0/optparse.c:186-192 | such a command line has no unknown letter after a flag |
| OptparseDoc.CleanIsSafe | ls2kdev_record/packages/optparse-v1.0.0/optparse.c:186-200 | and without such a letter no group meets a subopt left set |
| OptparseDoc.CleanIsExact | ls2kdev_record/packages/optparse-v1.0.0/optparse.c:186-192 | no unknown letter follows a flag if and only if every beginning of the command line followed by one more flag is read as documented |
| OptparseExact.UnnoticedIsExact | ls2kdev_record/packages/optparse-v1.0.0/optparse.c:180-232 | for options without required arguments, from every subopt, a command line is read as documented if and only if every short group that meets a stale subopt repeats its beginning from there on, up to its first unknown letter after flags |
| OptparseExact.SameReports | ls2kdev_record/packages/optparse-v1.0.0/optparse.c:180-232 | read from a later letter, a group reports the same exactly then |
| OptparseExact.NeverMadeUp | ls2kdev_record/packages/optparse-v1.0.0/optparse.c:180-232 | reports that the parser has missed are never made up for by later arguments |
| OptparseDoc.StaleExample | ls2kdev_record/packages/optparse-v1.0.0/optparse.c:186-192 | with only `a` known, the second argument of `-ax -a` is reported as an error |
| OptparseDoc.StalePastEnd | ls2kdev_record/packages/optparse-v1.0.0/optparse.c:180-192 | with `a` and `b` known, the second argument of `-abx -a` is read past its end |
| OptparseDoc.HarmlessStale | ls2kdev_record/packages/optparse-v1.0.0/optparse.c:186-192 | an unknown letter after a flag in the last group does no harm |
| OptparseDoc.LuckyStale | ls2kdev_record/packages/optparse-v1.0.0/optparse.c:186-192 | with only `a` known, `-ax -xx` is read from a stale subopt and still reported as documented |
| OptparseTable.CompiledLookup | ls2kdev_record/packages/optparse-v1.0.0/optparse.c:59-92 | for every table and character, looking the character up in the compiled option string gives the kind of the first entry whose short name is cut to it, with the stray colons behind that entry counted in and nothing found behind a name cut to NUL |
| OptparseTable.CompilationFaithful | ls2kdev_record/packages/optparse-v1.0.0/optparse.c:59-92 | for every table, the compiled string gives for each letter the kind of the first entry of that short name, or -1, if and only if no short name is a colon and every letter some name is cut to means in the string what the table declares |
| OptparseTable.BytesDecide | ls2kdev_record/packages/optparse-v1.0.0/optparse.c:59-92 | characters beyond a byte make no difference to that |
| OptparseTable.PlainIsFaithful | ls2kdev_record/packages/optparse-v1.0.0/optparse.c:59-92 | short names of one byte other than a colon are enough |
| OptparseTable.MaskedAlias | ls2kdev_record/packages/optparse-v1.0.0/optparse.c:77-92 | they are not needed: after the flag `a`, any other number with the same low byte does no harm |
| OptparseTable.ColonShortName | ls2kdev_record/packages/optparse-v1.0.0/optparse.c:77-92 | a colon as a short name turns the flag before it into an option that requires an argument |
| OptparseTable.WideShortName | ls2kdev_record/packages/optparse-v1.0.0/optparse.c:77-92 | a short name beyond one character aliases the one it is truncated to |
| Optparse.ArgTypeScan | ls2kdev_record/packages/optparse-v1.0.0/optparse.c:59-70 | the scan of an option string finds the kind of the first occurrence of the character |
| Optparse.LongMatch | ls2kdev_record/packages/optparse-v1.0.0/optparse.c:95-104 | a long name matches if and only if it is the whole part of the option before the first `=` |
| Optparse.LongArg | ls2kdev_record/packages/optparse-v1.0.0/optparse.c:107-114 | the value is what follows the first `=`, if there is one |
| Optparse.FromLongInto | ls2kdev_record/packages/optparse-v1.0.0/optparse.c:77-92 | the buffer receives the table's option string and its terminator |
| Optparse.Options.constructor | ls2kdev_record/packages/optparse-v1.0.0/optparse.c:138-146 | a fresh parser stands at the first argument, permutes, and has no message |
| Optparse.Options.Error | ls2kdev_record/packages/optparse-v1.0.0/optparse.c:20-33 | the message buffer holds the text, the separator, as much of the data as the copy loop's limit leaves room for, the closing quote and a terminator, within its 64 characters |
| Optparse.ErrorRule | ls2kdev_record/packages/optparse-v1.0.0/optparse.c:20-33 | a message is the text, two dashes and the data in single quotes, cut to 63 characters |
| Optparse.Options.Permute | ls2kdev_record/packages/optparse-v1.0.0/optparse.c:50-57 | the non-option moves behind everything parsed since, and the rest keeps its order |
| Optparse.Options.ShortOption | ls2kdev_record/packages/optparse-v1.0.0/optparse.c:180-233 | the switch over the kinds of option gives the event, the arguments consumed and the new subopt of the specification, in every branch |
| Optparse.Options.Optparse | ls2kdev_record/packages/optparse-v1.0.0/optparse.c:148-234 | one call, recursive and rotating argv in place, has the effect and the report of one step of the specification, where the letter it reads lies inside its argument |
| Optparse.Options.ShortFallback | ls2kdev_record/packages/optparse-v1.0.0/optparse.c:116-136 | a short option met by the long parser is reported as by the short one, with the index of the last table entry of that short name |
| Optparse.Options.LongOption | ls2kdev_record/packages/optparse-v1.0.0/optparse.c:275-304 | the table search reports the first entry of that name, its value or a missing, superfluous or unknown option |
| Optparse.Options.OptparseLong | ls2kdev_record/packages/optparse-v1.0.0/optparse.c:236-305 | one call has the effect and the report of one step of the specification; one that returns -1 leaves optopt, optarg and the message as they were |
| Optparse.Options.ParseLong | ls2kdev_record/packages/optparse-v1.0.0/optparse.c:269-304 | a long option has the effect and the report of the specification |
| Optparse.Options.NextArgument | ls2kdev_record/packages/optparse-v1.0.0/optparse.c:307-314 | steps over one argument and clears subopt |
| Optparse.Options.ParseAll | ls2kdev_record/packages/optparse-v1.0.0/readme.md:98-117 | the client's loop terminates and collects exactly the options of the run |
| Optparse.Options.ParseDocumented | ls2kdev_record/packages/optparse-v1.0.0/readme.md:98-122 | on a safe command line it collects the documented options, and argv from optind on is the non-options in their order, then what follows `--` |
| MorseCode.LookupGroup | ls2kdev_play/applications/morse_code.h:25-82 | looking up any character's own tokens prints the character, except that `&` is read as `H`, the other six-mark symbols but `@` gain a `~`, and a character without a code prints nothing |
| MorsePatterns.SentAsShown | ls2kdev_play/applications/morse_encode.c:235-830 | every character is sent as the pattern of dots and dashes that is printed for it, except `&`, printed as a V and sent as an H |
| MorsePatterns.UnknownPattern | ls2kdev_record/applications/morse/morse_decode.c:498-965 | a group of tokens, of any length, that no character is sent as is printed as `~` |
| MorseText.Translate | ls2kdev_play/applications/morse_encode.c:220-835 | the token array holds the codes of the text's characters, each followed by a letter gap, and zeros behind |
| MorseText.InverseTranslate | ls2kdev_record/applications/morse/morse_decode.c:467-974 | the text array holds what the separator-driven reading prints for the tokens before the terminator, and fill characters behind |
| MorseText.CollectGroup | ls2kdev_record/applications/morse/morse_decode.c:487-495 | collects the tokens up to the next letter gap or terminator |
| MorseText.ParseDistributes | ls2kdev_record/applications/morse/morse_decode.c:481-973 | every separator is visited once: the reading of groups joined by letter gaps is the readings of the groups in order, and it fits the parser's buffer if and only if every group has at most seven tokens |
| MorseText.ParseSkips | ls2kdev_record/applications/morse/morse_decode.c:481-973 | tokens before the first START or letter gap print nothing |
| MorseText.ParseSent | ls2kdev_record/applications/morse/morse_decode.c:481-973 | what the receiver prints for any translated text, character by character |
| MorseText.TextRoundTrip | ls2kdev_record/applications/morse/morse_decode.c:481-973 | any text whatever comes back unchanged if and only if it is stable |
| MorseText.PrintedIsText | ls2kdev_record/applications/morse/morse_decode.c:481-973 | the prints of its characters, in order, are the text itself if and only if it is stable |
| MorseText.StableAlphabet | ls2kdev_record/applications/morse/morse_decode.c:481-973 | among texts whose characters all have a code, the stable ones are those over the round-trip alphabet |
| MorseText.SendAndReceive | ls2kdev_record/applications/morse/morse_decode.c:467-974 | the sender's token array, behind START, leaves the print of the text in the receiver's array, and for a stable text the text itself, when both fit |
| MorseDecision.RunsAreMaximal | ls2kdev_record/applications/morse/morse_decode.c:134-208 | the runs counted by the automaton are non-empty, alternate, and make up the signal |
| MorseDecision.RunsAreUnique | ls2kdev_record/applications/morse/morse_decode.c:134-208 | no other list of such runs makes up the same signal |
| MorseDecision.StartPlace | ls2kdev_record/applications/morse/morse_decode.c:148-182 | the tokens are those of every completed run in order, with one START just before the first classified mark and none without such a mark |
| MorseDecision.DecidedStep | ls2kdev_record/applications/morse/morse_decode.c:134-208 | a frame adds the tokens of the run it ends, if it ends one, and nothing otherwise |
| MorseDecision.Decide | ls2kdev_record/applications/morse/morse_decode.c:120-208 | for every energy sequence and thresholds, if they fit, the array holds the tokens of the completed runs and zeros behind |
| MorseCounts.TokenCounts | ls2kdev_record/applications/morse/morse_decode.c:134-208 | for every energy sequence there is a dot for every completed high run from dotMin to below dashMin, a dash for every one from there to below dashEnd, one or two letter gaps and a word gap for low runs by their length, and nothing else but START |
| MorseCounts.MarkAlone | ls2kdev_record/applications/morse/morse_decode.c:134-182 | a single mark of n frames is decided as START and a dot or dash if n is in range, dropped otherwise, and not decided before it ends |
| MorseCounts.GapBetween | ls2kdev_record/applications/morse/morse_decode.c:134-208 | two marks in range with a gap between them are decided as START, the first mark, nothing, a letter gap or a word gap between two of them by the gap's length, and the second mark |
| MorseCounts.ThreadRanges | ls2kdev_record/applications/morse/morse_decode.c:120-208 | the same for one thread with its numbers, 10, 35 and 50 frames for marks and 6 and 15 for gaps, and for the other with 3, 10, 20, 8 and 60 |
| MorseCounts.ThreadsDrop | ls2kdev_record/applications/morse/morse_decode.c:318-406 | a single mark is dropped by either thread if and only if it is outside its range |
| MorseDecision.ThreadsAreOrdered | ls2kdev_record/applications/morse/morse_decode.c:150-191 | the thresholds of both threads are in the order the theorems about keyed text ask for |
| MorseDecision.PutMark | ls2kdev_record/applications/morse/morse_decode.c:342-377 | the end of a run of high frames, with the thresholds of either thread |
| MorseDecision.PutGap | ls2kdev_record/applications/morse/morse_decode.c:383-401 | the end of a run of low frames, with the thresholds of either thread |
| MorseLink.Receive | ls2kdev_record/applications/morse/morse_decode.c:318-420 | the automaton followed by the parser leaves the reading of the decided tokens in the text array |
| MorseLink.DecidedText | ls2kdev_record/applications/morse/morse_decode.c:120-208 | a text keyed by runs of any lengths in the dot, dash and gap ranges, frames at the threshold inside a run allowed, is decided as START and its characters' codes |
| MorseLink.EndToEnd | ls2kdev_record/applications/morse/morse_decode.c:120-224 | such a text is printed character by character, and unchanged if and only if every character is in the round-trip alphabet |
| MorseLink.ReceiveKeyed | ls2kdev_record/applications/morse/morse_decode.c:318-420 | the receiver's text array then holds exactly that text, when tokens and text fit |
| PciConfig.TagRoundTrip | ls2kdev_record/drivers/pci/pci_machdep.c:256-284 | making a tag and breaking it up gives back bus, device and function |
| PciConfig.SameAddress | ls2kdev_record/drivers/pci/ls2k_pci.c:60-100 | a word is written where it is read if and only if the register's bits 8 to 11 are set in the tag |
| PciConfig.NoAliasing | ls2kdev_record/drivers/pci/ls2k_pci.c:60-87 | below 0x100, different functions or words never share an address |
| PciWindows.AddressOfFunction | ls2kdev_record/drivers/pci/ls2k_pci.c:40-87 | all 64 bits of a word's address: the window of type 0 on bus 0 and of type 1 elsewhere, and the five fields |
| PciConfig.IsRootPort | ls2kdev_record/drivers/pci/ls2k_pci.c:18-38 | the search of the bus table stops at the first entry for the bus or at a missing one |
| PciWindows.RootPortRule | ls2kdev_record/drivers/pci/ls2k_pci.c:25-36 | a bus is behind a root port if and only if the first table entry for it, with none missing before, is a bridge on bus 0 or of that type |
| PciConfig.ConfigSpace.ConfReadN | ls2kdev_record/drivers/pci/ls2k_pci.c:102-152 | a read of any tag, register and width, its refusals and fixed answers included |
| PciWindows.OnBoardRead | ls2kdev_record/drivers/pci/ls2k_pci.c:102-152 | on bus 0, for every device, register and width: all ones for device 2 and for misplaced registers, the fixed class code of devices 9 to 14, and otherwise the bits of the hardware word |
| PciWindows.OffBoardRead | ls2kdev_record/drivers/pci/ls2k_pci.c:102-152 | on other buses: all ones for misplaced registers and for devices above 0 behind a root port, otherwise the bits of the hardware word |
| PciWindows.ReadStaysInWindow | ls2kdev_record/drivers/pci/ls2k_pci.c:119-140 | a read below 0x100 depends on no word outside its bus's window |
| PciConfig.ConfigSpace.ConfWriteN | ls2kdev_record/drivers/pci/ls2k_pci.c:219-270 | a write changes at most the one word at its write address, to the old word as the driver reads it with the written bytes replaced |
| PciWindows.WriteStaysInWindow | ls2kdev_record/drivers/pci/ls2k_pci.c:264-269 | a write below 0x100 changes no word outside it |
| PciWindows.RefusedWrite | ls2kdev_record/drivers/pci/ls2k_pci.c:224-249 | a refused write changes nothing |
| PciBytes.ReadRefines | ls2kdev_record/drivers/pci/ls2k_pci.c:102-152 | an aligned read of one, two or four bytes returns the little-endian value of the byte memory |
| PciBytes.WriteRefines | ls2kdev_record/drivers/pci/ls2k_pci.c:219-270 | an aligned write changes exactly its own bytes of the byte memory, of no other function or offset |
| PciBytes.SequenceRefines | ls2kdev_record/drivers/pci/ls2k_pci.c:102-270 | every sequence of such accesses returns what the byte memory would |
| PciBytes.NarrowReadsAgree | ls2kdev_record/drivers/pci/ls2k_pci.c:165-194 | at plain offsets the dedicated byte read, and at even ones the halfword read, agree with the general one |
| PciBytes.NarrowReadsExact | ls2kdev_record/drivers/pci/ls2k_pci.c:102-194 | for every function and register they agree for all words if and only if the offset is plain, and even for a halfword |
| PciBytes.NarrowReadsWrap | ls2kdev_record/drivers/pci/ls2k_pci.c:165-194 | they see only the low eight bits of the register, seven for a halfword |
| PciBytes.WordReadBack | ls2kdev_record/drivers/pci/ls2k_pci.c:70-100 | a word written at any register is read back if its bits 8 to 11 are set in the tag, and otherwise the read does not see the write |

## Left out

ADPCM:

- Integers are unbounded. Without noise shaping every intermediate value fits the source's 32 bits; with static shaping and no lookahead it does for the first 130736 blocks, as proved; for dynamic shaping, and for static shaping with lookahead or over more blocks, wrap-around of the error, the weight and what is computed from them is not modelled.
- The search's costs are exact integers; the source keeps them in doubles, which are exact as long as sums of squares stay below 2^53.
- AdpcmCodec.Context.EncodeBlock: the debug prints, the always-1 result and negative counts are not modelled; one or two channels, as the context's arrays allow; noise shaping is one of the three named modes.
- AdpcmShaping.ErrorGrowth: no bound is proved for lookahead above 0 or for dynamic shaping.
- Memory allocation and release, WAV files and the shell commands.

Options:

- Strings are values: that an option's argument points into argv is not modelled, nor is the signedness of `char` (characters are unsigned).
- An option table is given as its entries before the terminator (the type `Entry` excludes the terminator itself); `longindex` is always wanted.
- OptparseExact.UnnoticedIsExact: with required arguments, a group read from the wrong letter can also consume another number of arguments; for those the exact statement is `OptparseDoc.CleanIsExact`.
- Optparse.Options.Optparse: the precondition is that the letter at subopt is not beyond its argument's terminator, which the source does not check; runs that break it are described by `OptparseScan.RunIsScan` as `None`, not by what the memory there holds.
- Optparse.Options.OptparseLong: the compiled option string must fit the 289 characters the source reserves for it.

Morse:

- Cutting the samples into frames and computing energies; sound, key and timer handling; the shell commands.
- The `morse_` tables are taken to end in a zero, as the copy loops expect.
- MorseText.InverseTranslate: groups of more than seven tokens, more than 31 printed characters and token arrays without a terminator overrun fixed arrays in the source and are excluded.
- The receiver is modelled with the sender's code book; its own header is not part of this model.

PCI:

- Configuration words are plain storage: registers that are read-only, clear on write or change by themselves are not modelled.
- PciBytes.SequenceRefines: bus 0 device 2, which is never read, the fixed class code of bus 0 devices 9 to 14, functions behind a root port other than device 0, registers from 0x100 on, and values wider than the access are outside the byte-memory theorems; what reads and writes do there is still in `PciConfig.ReadN` and `PciConfig.WriteN`.
- Widths are 1, 2 and 4; a negative register is a large unsigned one, and is refused as in the source.
- Bringing up the bus, resource allocation and everything that walks `_pci_bus` other than the root-port check.

Not modelled at all, because what is visible of them is register plumbing or data: the GMAC, GPIO, UART, SPI, I2C, PWM, clock and interrupt drivers, the RTC fields, the audio byte arrays, FFT and filters.
