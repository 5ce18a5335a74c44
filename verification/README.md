# OneTeam: codec, protocols and stores, modelled and proved

OneTeam is an XMPP client. This project models the parts of it whose correctness is decided
by code rather than by libraries, and proves what they are for.

* **iLBC speech codec** (RFC 3951). `LpcFilters`, `Levinson`, `LagWindow`, `BitPacking`, `UlpFrame`, `Codebook`,
  `CodebookSearch`, `Gains`, `CodebookStages`, `BestFit`, `StageLaws`, `IndexConversion`, `Quantisers`,
  `FilterResponses`. Encoder and decoder are separate programs that must agree: filters that undo each other with
  carried memory, a predictor that solves the normal equations of windowed lags, codebooks that are equal although
  they are built differently, energies that are updated instead of summed, search stages that refine each other, a bit
  stream that splits every parameter over three classes. Floating point is modelled by exact reals.
* **Streaming XML parser and stanza builder.** `XmlText`, `StanzaBuilder`, `XmlParser`, `XmlSegmentation`,
  `XmlDiscipline`, `XmlMarkup`, `XmlPieces`, `XmlNames`, `XmlRoundTrip`. The character machine is given twice, as a
  transition table and as the object that switches on its state. On top of it: stanzas do not depend on how TCP cuts
  the stream, the tag and namespace stacks go together, and a stream, however its markup is written, is read as what
  it means.
* **SOCKS5 bytestreams** (RFC 1928 sections 3 to 6, XEP-0065). `Socks5Peers`, `Socks5Streams`, `Socks5EndToEnd`,
  `Socks5Outcomes`, `Socks5Handshake`, `Socks5Files`, `Socks5Listener`, `Socks5Service`. Two numbered-state machines
  over two byte queues, in every interleaving and fragmentation; each of them against an arbitrary other side, also
  when a connection comes in after an abort; and the service that joins their reports.
* **Message edits.** `EditDiff`: a memoised longest common subsequence and the run splitter that marks what differs.
* **Relay table.** `JnRelayTable`, `JnRelay`: a table compacted in place, and the relay thread and an allocator under
  one monitor, step by step.
* **Audio buffers.** `AudioBuffers`, `AudioOutput`: reframing with a zero-copy path and with a saved tail.
* **Identifiers and history.** `Jid`, `HistoryPaging`: a cache that must agree with the parser it stands in front of,
  and a cursor that must neither lose nor repeat a message.

Imperative code is modelled by methods on arrays and objects, each proved equal to a function of its inputs or of the
old state; the theorems are lemmas about these functions. Where a property turned out not to hold for all inputs, the
exact condition is proved instead: see `Jid.FaithfulIff`, `Jid.ParsedIsFaithfulIff`, `JnRelay.OneThreadIff`,
`Socks5Listener.SilentAfterAbortIff`, `Socks5Service.StartsTwiceIff`, `Socks5Service.FailureCoincidesIff`,
`HistoryPaging.FlagIsTruthfulIff`, `HistoryPaging.ReaderIsToldTruthIff`, `StageLaws.FirstStageHelpsIff`,
`StageLaws.GainsScaleIff`, `Jid.ShownAsTypedIff`, `XmlPieces.CdataDeliveredIff`, `XmlText.DecodeDistributesIff`,
`XmlSegmentation.TextCutIff`, `LpcFilters.InversionNeedsUnitLead`. `Options` and `Sequences` are shared helpers.

Points where the code decides against its own documentation or evident aim, and the model follows the code:

* A text such as `@a@b` is parsed with an empty node and interned under `a@b`, which parses differently
  (`xmpptypes.js:32-53`).
* `AllocateRelay` initialises again, and starts a second thread, when all relays have expired (`otJNRelay.cpp:134`).
* A DOCTYPE in the prolog does not leave its first state, because the assignment is a comparison (`xmlparser.js:352-357`).
* In a CDATA section a third closing bracket does not count towards the terminator, so content that ends in a bracket
  may swallow what follows the section (`xmlparser.js:804-818`).
* A node that looks like an escaped one is taken for one: `a\20b@c` is shown as `a b@c` (`xmpptypes.js:136-140`).
* After an error the rest of the chunk is dropped and nothing is flushed (`xmlparser.js:139-145`).
* The flag of a history page only says that there is something left to look at, so a reader who has seen everything may
  be told that there is more (`history.js:759`).
* A sender whose direct stream is lost before the answer reports a failure, and may start through the proxy or be
  rejected afterwards (`socks5.js:260-264`).
* The abort of a listening peer without a connection leaves no mark, so a connection that is already queued starts the
  handshake (`socks5.js:528-565`); its readiness asks the proxy for a second activation, and the transfer may start twice.
* The first stage of the codebook search has no zero gain: silence is coded as a scaled vector (`iCBSearch.c:406-415`).
* The gain adjustment assumes that the later gains follow the first one, but their scale has a lower bound
  (`gainquant.c:36-42`).

## Model

| member | source | states |
|---|---|---|
| `LpcFilters.AnaFilter` | src/components/libs/libilbc/anaFilter.c:20-71 | The block written is the FIR filtering of the input with the memory in front of it, nothing else of the output changes, and the memory ends as the last ten input samples. |
| `LpcFilters.SyntFilter` | src/components/libs/libilbc/syntFilter.c:19-66 | In place: the block becomes the recursive filtering of its old content, the memory ends as the last ten outputs, the rest of the signal is untouched. |
| `LpcFilters.AllPoleFilter` | src/components/libs/libilbc/filter.c:19-46 | In place: the samples become the recursive filtering continued from the outputs before them. |
| `LpcFilters.AllZeroFilter` | src/components/libs/libilbc/filter.c:52-74 | The output is the FIR filtering of the input with the samples before it. |
| `LpcFilters.ZeroPoleFilter` | src/components/libs/libilbc/filter.c:80-104 | The zero section followed by the pole section; with equal coefficients, a leading 1 and equal memories it gives the input back. |
| `LpcFilters.IirUndoesFir` | src/components/libs/libilbc/syntFilter.c:31-60 | For every state, block and coefficients with leading 1, synthesis after analysis is the identity. |
| `LpcFilters.FirUndoesIir` | src/components/libs/libilbc/anaFilter.c:27-66 | The other direction: analysis after synthesis is the identity. |
| `LpcFilters.InversionNeedsUnitLead` | src/components/libs/libilbc/anaFilter.c:20-71 | The round trip holds for every state and block if and only if the leading coefficient is 1. |
| `LpcFilters.RunRoundTrip` | src/components/libs/libilbc/syntFilter.c:19-66 | Over any sequence of blocks with per-block coefficients and carried memory, every block is given back. |
| `LpcFilters.NextStateIsTail` | src/components/libs/libilbc/anaFilter.c:67-71 | The memory after a block of at least ten samples is its tail. |
| `LpcFilters.ResidualOfFrame` | src/components/libs/libilbc/iLBC_encode.c:139-142 | The encoder's sub-frame loop computes the run of the analysis filter over the sub-frames, and the memory after all of them. |
| `LpcFilters.SynthesiseFrame` | src/components/libs/libilbc/iLBC_decode.c:622-626 | The decoder's sub-frame loop computes the run of the synthesis filter over the sub-frames, in place. |
| `LpcFilters.FrameRoundTrip` | src/components/libs/libilbc/iLBC_encode.c:139-142 | Both loops one after the other, from equal memories: every sub-frame of the frame is restored and the memories stay equal. |
| `FilterResponses.FirOfImpulse` | src/components/libs/libilbc/anaFilter.c:33-66 | An impulse comes out of the analysis filter as its coefficients. |
| `FilterResponses.FirIsLinear` | src/components/libs/libilbc/anaFilter.c:33-66 | The filter is linear in its memory and its input together. |
| `FilterResponses.FirMemoryIsPast` | src/components/libs/libilbc/anaFilter.c:33-66 | The memory acts as the input that came before. |
| `Levinson.Autocorr` | src/components/libs/libilbc/helpfun.c:22-43 | The lags written are the lag sums of the signal, nothing beyond the order is touched. |
| `Levinson.TwoEndedUpdate` | src/components/libs/libilbc/helpfun.c:99-105 | The two-ended loop, with its shared middle element, gives every a[i] its old value plus k times the old mirrored one. |
| `Levinson.Levdurb` | src/components/libs/libilbc/helpfun.c:67-108 | In place: for r[0] below the threshold the trivial predictor; otherwise the coefficients and reflections of the recursion, which solve the normal equations. |
| `Levinson.RaiseKeepsNormal` | src/components/libs/libilbc/helpfun.c:87-106 | One order more keeps the normal equations: leading 1, zero correlation at lags 1 to the order, alpha at lag 0. |
| `Levinson.SolveIsNormal` | src/components/libs/libilbc/helpfun.c:67-108 | For any order, if no intermediate alpha is zero, the result satisfies every normal equation, with alpha the remaining energy. |
| `Levinson.NormalForm` | src/components/libs/libilbc/helpfun.c:80-106 | A solution of the normal equations has the quadratic form of the lags equal to alpha. |
| `Levinson.ErrorShrinks` | src/components/libs/libilbc/helpfun.c:97-98 | With positive alpha before and after, the reflection coefficient lies strictly between -1 and 1. |
| `Levinson.PositiveLagsAreRegular` | src/components/libs/libilbc/helpfun.c:80-106 | For a positive definite sequence of lags no intermediate alpha vanishes and all reflections lie inside the unit interval. |
| `Levinson.CorrIsErrorCorrelation` | src/components/libs/libilbc/helpfun.c:22-43 | The Toeplitz sums of a predictor are the inner products of its prediction error with the delayed signal. |
| `Levinson.FormIsErrorEnergy` | src/components/libs/libilbc/helpfun.c:22-43 | The quadratic form of the lags is the energy of the prediction error. |
| `Levinson.SignalLagsArePositive` | src/components/libs/libilbc/helpfun.c:22-43 | The lags of a signal that is not zero are positive definite. |
| `Levinson.AutocorrelationIsRegular` | src/components/libs/libilbc/helpfun.c:22-108 | Lags computed from any nonzero signal, taken without a window, drive the recursion without a division by zero, with positive final energy and stable reflections. |
| `Levinson.SolveIsBestPredictor` | src/components/libs/libilbc/helpfun.c:67-108 | Among all predictors of the same order with leading 1 the recursion's has the least prediction error energy, and alpha is that energy. |
| `LagWindow.Window` | src/components/libs/libilbc/helpfun.c:50-61 | Every sample times its window value, also in place, nothing else touched. |
| `LagWindow.LeftoverIsSmall` | src/components/libs/libilbc/constants.c:406-410 | The Toeplitz matrix of the shipped lag window is three outer products and a remainder whose diagonal outweighs it. |
| `LagWindow.WindowedForm` | src/components/libs/libilbc/LPCencode.c:57-58 | The quadratic form of the windowed lags is three forms of the lags themselves and that of the remainder. |
| `LagWindow.WindowedLagsArePositive` | src/components/libs/libilbc/LPCencode.c:57-58 | The windowed lags of a signal that is not zero are positive on every predictor of an order up to 10. |
| `LagWindow.WindowedIsRegular` | src/components/libs/libilbc/LPCencode.c:57-60 | On the windowed lags no step of the recursion divides by zero, every prediction error is positive, every reflection lies inside the unit interval. |
| `LagWindow.Predictor` | src/components/libs/libilbc/LPCencode.c:57-60 | Autocorrelation, lag window and recursion on any block at all, silent or not: reflections strictly inside the unit interval, and coefficients that solve the normal equations of the windowed lags or the trivial predictor. |
| `BitPacking.PackSplit` | src/components/libs/libilbc/packing.c:26-46 | The two parts are the values of the first bits and of the remaining bits of the index. |
| `BitPacking.PackCombine` | src/components/libs/libilbc/packing.c:53-61 | Joins two values into the value of their joined bits. |
| `BitPacking.DoPack` | src/components/libs/libilbc/packing.c:68-119 | Appends exactly the bits of the value to what has been written, whatever byte boundaries it crosses; earlier bits and other bytes stay, and the end position is clean for the next write. |
| `BitPacking.Unpack` | src/components/libs/libilbc/packing.c:126-181 | Returns the value of exactly the next bits and moves the position by as many. |
| `BitPacking.FitsBelow` | src/components/libs/libilbc/packing.c:105-118 | A value fits a width if and only if it is below that power of two. |
| `BitPacking.PlaceField` | src/components/libs/libilbc/packing.c:103-110 | Or-ing a shifted field into a byte whose low bits are clear places the field and disturbs nothing. |
| `BitPacking.TakeWithin` | src/components/libs/libilbc/packing.c:158-166 | Masking and shifting takes a field that lies inside one byte. |
| `BitPacking.TakeAcross` | src/components/libs/libilbc/packing.c:167-179 | Masking and shifting takes the part of a field that reaches to the end of a byte, scaled to its place. |
| `BitPacking.PackAll` | src/components/libs/libilbc/packing.c:68-119 | A sequence of fields is written as the concatenation of their bits. |
| `BitPacking.UnpackAll` | src/components/libs/libilbc/packing.c:126-181 | Reading with the same widths gives the value of each slice. |
| `BitPacking.FieldBitsAt` | src/components/libs/libilbc/packing.c:68-119 | Where in the concatenation the bits of each field are. |
| `BitPacking.PackRoundTrip` | src/components/libs/libilbc/packing.c:68-181 | Any sequence of fitting values, packed and unpacked with the same widths from any start position, comes back; the reader ends at the writer's byte and bit, and nothing written before is disturbed. |
| `UlpFrame.EncodeFrame` | src/components/libs/libilbc/iLBC_encode.c:413-541 | The class-by-class loop writes the parts of all parameters, class after class, and a final 0 bit. |
| `UlpFrame.DecodeFrame` | src/components/libs/libilbc/iLBC_decode.c:395-482 | The class-by-class loop gathers for every parameter its three slices, and returns the last bit. |
| `UlpFrame.PartsJoin` | src/components/libs/libilbc/packing.c:26-61 | The three parts of a parameter, most significant first, join to the parameter. |
| `UlpFrame.SliceOfFrame` | src/components/libs/libilbc/iLBC_encode.c:418-537 | The slice where the decoder looks for a part holds the bits the encoder put there. |
| `UlpFrame.ParameterRestored` | src/components/libs/libilbc/iLBC_decode.c:395-478 | What the decoder gathers for a parameter of an encoded frame is the parameter. |
| `UlpFrame.FrameSize` | src/components/libs/libilbc/iLBC_encode.c:418-541 | A frame has as many bits as its table gives all parameters together, and one more. |
| `UlpFrame.FrameRoundTrip` | src/components/libs/libilbc/iLBC_decode.c:359-482 | For every table with three classes and all fitting parameters, encoding and decoding restores every parameter and the final 0 bit. |
| `UlpFrame.Frame20msIs304Bits` | src/components/libs/libilbc/constants.c:19-42 | The shipped 20 ms table fills 38 bytes exactly. |
| `UlpFrame.Frame30msIs400Bits` | src/components/libs/libilbc/constants.c:44-70 | The shipped 30 ms table fills 50 bytes exactly. |
| `Codebook.FilteredCBvecs` | src/components/libs/libilbc/createCB.c:29-59 | The buffer becomes the memory filtered with zeros around it. |
| `Codebook.CreateAugmentedVec` | src/components/libs/libilbc/createCB.c:190-230 | The vector built is the interpolated vector of the buffer for this index. |
| `Codebook.ExtractVector` | src/components/libs/libilbc/iCBSearch.c:430-471 | The vector the encoder takes for an index is the codebook vector of that index, in all four sections. |
| `Codebook.GetCBvec` | src/components/libs/libilbc/getCBvec.c:21-192 | The vector the decoder builds for an index is the codebook vector of that index, in all four sections. |
| `FilterResponses.FilteredImpulse` | src/components/libs/libilbc/createCB.c:48-58 | The expansion filter answers an impulse with its eight taps, from four samples before it to three after it. |
| `FilterResponses.FadeEnds` | src/components/libs/libilbc/createCB.c:205-222 | The cross-fade goes in equal parts from the old sample to the new one. |
| `FilterResponses.InterpolatedRepeats` | src/components/libs/libilbc/createCB.c:190-230 | The interpolated vector of a lag repeats itself with that lag. |
| `Codebook.CodebooksAgree` | src/components/libs/libilbc/getCBvec.c:21-192 | From equal memories, at different offsets in different buffers and for every valid index, the encoder's vector is the decoder's. |
| `CodebookSearch.SlideEnergy` | src/components/libs/libilbc/iCBSearch.c:178-182 | The energy of a window moved by one is the old energy plus the sample that enters minus the one that leaves. |
| `CodebookSearch.SlidingEnergies` | src/components/libs/libilbc/iCBSearch.c:319-337 | At every lag the sliding update holds the direct sum of squares of that window. |
| `CodebookSearch.InterpolatedAt` | src/components/libs/libilbc/createCB.c:190-230 | An interpolated vector sample by sample: copy, cross-fade, copy. |
| `CodebookSearch.AugmentedCandidate` | src/components/libs/libilbc/createCB.c:94-155 | The recursive energy and the cross product of one augmented candidate are the inner products with the interpolated vector, though they start at other samples. |
| `CodebookSearch.SearchAugmentedCB` | src/components/libs/libilbc/createCB.c:71-182 | The augmented search considers exactly these candidates in order and stores their energies. |
| `CodebookSearch.SearchPlain` | src/components/libs/libilbc/iCBSearch.c:106-213 | The search of the first section gives the best of its vectors, with the energies found by sliding. |
| `CodebookSearch.SearchFiltered` | src/components/libs/libilbc/iCBSearch.c:341-384 | The restricted search of the filtered section gives the best of its vectors in the window. |
| `CodebookSearch.SelectRange` | src/components/libs/libilbc/iCBSearch.c:251-309 | The restricted window in each case of the best index so far. |
| `CodebookSearch.WindowIsSound` | src/components/libs/libilbc/iCBSearch.c:251-309 | The window always holds 34 candidates, lies inside both ranges, and contains the best first-section index. |
| `CodebookSearch.BestOfIsMaximal` | src/components/libs/libilbc/iCBSearch.c:156-212 | The candidate kept is admissible and no admissible candidate measures more. |
| `CodebookSearch.FirstBestIsFirstHalf` | src/components/libs/libilbc/iCBSearch.c:230-232 | After the first search the best index is one the window computation can start from. |
| `CodebookSearch.SearchStage` | src/components/libs/libilbc/iCBSearch.c:100-393 | One whole stage, both sections plain and augmented: the result is the best over first-section candidates and then over the window around it. |
| `CodebookSearch.WindowIsCentred` | src/components/libs/libilbc/iCBSearch.c:251-309 | The window stands 17 candidates before the best index unless it would leave the line of candidates, and then at that end of the line. |
| `CodebookSearch.IndicesAre` | src/components/libs/libilbc/iCBSearch.c:186-391 | Which indices the two searches of a stage consider. |
| `BestFit.OwnGainIsBest` | src/components/libs/libilbc/iCBSearch.c:146-164 | The gain computed for a vector takes the most off the error that any gain can, the error being the energy left plus EPS times the squared gain. |
| `BestFit.StageIsBestFit` | src/components/libs/libilbc/iCBSearch.c:100-391 | No candidate of the first search, or of the window around its best, leaves a smaller error with any gain whatever than what the stage finds; in the first stage among the positively correlated ones. |
| `Gains.GainQuant` | src/components/libs/libilbc/gainquant.c:27-76 | A nearest entry of the scaled table, the first of them, among those closer than the initial bound; the decoder gets the same gain if and only if the maximum is at least -0.1 or the entry is zero. |
| `Gains.NearestIsNearest` | src/components/libs/libilbc/gainquant.c:55-72 | For the gains that the search quantises the initial bound does not matter: the entry is a nearest one. |
| `CodebookStages.QuantiseGain` | src/components/libs/libilbc/iCBSearch.c:401-425 | The gain of a stage is quantised relative to that of the stage before, and the decoder gets the same gain. |
| `CodebookStages.SearchStages` | src/components/libs/libilbc/iCBSearch.c:100-484 | The loop over any number of stages: each index is the best for what the stages before left, each gain index a nearest gain; the target ends as that remainder and the built vector as what the indices decode to. The energies of the first stage serve all. |
| `CodebookStages.ResidualCompletes` | src/components/libs/libilbc/iCBSearch.c:473-479 | The target is always the vector that the indices decode to and what is left. |
| `CodebookStages.AdjustGain` | src/components/libs/libilbc/iCBSearch.c:493-503 | The first gain ends at the last entry, counted up from the quantised one, that keeps less energy than the target and whose predecessor is not yet the double. |
| `CodebookStages.ICBSearch` | src/components/libs/libilbc/iCBSearch.c:26-504 | The whole search of a block: weighting of memory and target, the stages, and the adjustment of the first gain index; all other indices are those of the stages. |
| `CodebookStages.ICBConstruct` | src/components/libs/libilbc/iCBConstruct.c:66-112 | The decoder's vector is the sum of the codebook vectors of the indices times the gains of the gain indices, the form in which the encoder's results are stated. |
| `StageLaws.LaterStagesNeverHurt` | src/components/libs/libilbc/iCBSearch.c:393-479 | No stage after the first leaves more energy than it found, for every memory and target. |
| `StageLaws.RefinementNeverHurts` | src/components/libs/libilbc/iCBSearch.c:100-484 | All stages after the first together do not either. |
| `StageLaws.FirstStageFinds` | src/components/libs/libilbc/iCBSearch.c:106-391 | The first stage finds nothing exactly when no candidate of the first search, and none of the window around index 0, is positively correlated with a gain below the limit; what it finds has a positive gain. |
| `StageLaws.FirstStageHelpsIff` | src/components/libs/libilbc/iCBSearch.c:100-479 | The first stage does not leave more energy than there was if and only if, with such a candidate, the smallest gain of the table is at most twice the best one (but for EPS), and without, it does not overshoot on vector 0; in terms of memory, target and range. |
| `StageLaws.FirstStageHelpsWhen` | src/components/libs/libilbc/iCBSearch.c:406-479 | A best gain of half the smallest one is enough. |
| `StageLaws.SilenceGetsLouder` | src/components/libs/libilbc/iCBSearch.c:106-479 | A silent target whose memory ends in a nonzero sample: index 0 is taken and energy is left. |
| `StageLaws.GainsScaleIff` | src/components/libs/libilbc/iCBConstruct.c:84-95 | Raising the first gain index raises all gains in proportion if and only if no later nonzero gain rests on the lower bound of its scale. |
| `StageLaws.RaisedKeepsBelow` | src/components/libs/libilbc/iCBSearch.c:486-503 | Where the gains scale, the test of the adjustment decides exactly whether the vector decoded from the raised index has less energy than the target. |
| `StageLaws.AdjustmentStops` | src/components/libs/libilbc/iCBSearch.c:486-503 | Where the gains scale, the adjusted gain keeps less energy than the target if it was raised, and the next entry would not, or the gain is doubled, or the table is at its end. |
| `StageLaws.FloorHoldsGain` | src/components/libs/libilbc/gainquant.c:36-42 | Two pairs of indices whose first gains differ and whose second gains do not. |
| `IndexConversion.IndexConvEnc` | src/components/libs/libilbc/iCBConstruct.c:28-43 | In place: every index but the first is narrowed. |
| `IndexConversion.IndexConvDec` | src/components/libs/libilbc/iCBConstruct.c:45-60 | In place: every index but the first is widened. |
| `IndexConversion.FirstSubBlockConverts` | src/components/libs/libilbc/iCBConstruct.c:28-60 | Whatever the later stages of the first sub-block can find fits seven bits after conversion and comes back from the conversion. |
| `Quantisers.SortSq` | src/components/libs/libilbc/helpfun.c:235-266 | The index found in a sorted codebook of at least two entries is a nearest one, the first of them if the entries are distinct. |
| `Quantisers.DistIsEnergy` | src/components/libs/libilbc/helpfun.c:176-182 | The squared distance is the energy of the difference, and zero only between equal vectors. |
| `Quantisers.Vq` | src/components/libs/libilbc/helpfun.c:165-203 | The entry chosen is the first nearest among those closer than the initial bound. |
| `Quantisers.SplitVQ` | src/components/libs/libilbc/helpfun.c:209-229 | Every part is quantised with its own codebook, at its own offsets; the vector written is the dequantisation of the indices. |
| `Quantisers.SplitBeats` | src/components/libs/libilbc/helpfun.c:209-229 | In each part the chosen entry is at least as near as any other, if some entry is within the bound. |
| `Quantisers.SplitIsGloballyNearest` | src/components/libs/libilbc/helpfun.c:209-229 | Over the product of the split codebooks no combination of entries is nearer. |
| `Quantisers.SimplelsfQ` | src/components/libs/libilbc/LPCencode.c:190-208 | Every set of line spectral frequencies is quantised; the encoder's vector is the dequantisation of its indices. |
| `Quantisers.SimplelsfDEQ` | src/components/libs/libilbc/LPCdecode.c:42-83 | The decoder's vector is the dequantisation of the indices. |
| `Quantisers.LsfAgree` | src/components/libs/libilbc/LPCdecode.c:42-83 | On the encoder's indices the decoder gets exactly the encoder's vector. |
| `XmlText.UnescapeIsDecode` | chrome/oneteam/content/JavaScript/utils.js:485-495 | The chain of five global replacements is one left-to-right decoding. |
| `XmlText.EscapeRoundTrip` | chrome/oneteam/content/JavaScript/utils.js:473-495 | Unescaping an escaped text gives the text back, for every text. |
| `XmlText.DecodeDistributes` | chrome/oneteam/content/JavaScript/utils.js:485-495 | Unescaping distributes over every cut that no reference lies across. |
| `XmlText.DecodeDistributesIff` | chrome/oneteam/content/JavaScript/utils.js:485-495 | It distributes over a cut if and only if no reference lies across it. |
| `StanzaBuilder.SocketHandler.OnStartElement` | chrome/oneteam/content/JavaScript/xmppsocket.js:192-206 | Opens an element, or records a stream header and leaves the tree. |
| `StanzaBuilder.SocketHandler.OnEndElement` | chrome/oneteam/content/JavaScript/xmppsocket.js:208-216 | Closes the current element; an outermost one is delivered as a stanza. |
| `StanzaBuilder.SocketHandler.OnCharacters` | chrome/oneteam/content/JavaScript/xmppsocket.js:218-227 | Extends a last child that is text, or adds a text; without a parent nothing happens. |
| `StanzaBuilder.TextCoalesces` | chrome/oneteam/content/JavaScript/xmppsocket.js:218-227 | How text is divided over calls leaves no trace in the tree. |
| `XmlParser.LastColon` | chrome/oneteam/content/JavaScript/xmlparser.js:68-91 | The prefix ends at the last colon of a name. |
| `XmlParser.OTXMLParser.OnAttribute` | chrome/oneteam/content/JavaScript/xmlparser.js:54-66 | Declares a prefix in the innermost frame, refuses "xmlns:xmlns", drops declarations that touch the reserved names, records the rest. |
| `XmlParser.OTXMLParser.OnStartTag` | chrome/oneteam/content/JavaScript/xmlparser.js:93-98 | A fresh attribute list and a new innermost namespace frame. |
| `XmlParser.OTXMLParser.OnStartElement` | chrome/oneteam/content/JavaScript/xmlparser.js:100-110 | Pushes the resolved name and reports the element with its resolved attributes. |
| `XmlParser.OTXMLParser.OnEndElement` | chrome/oneteam/content/JavaScript/xmlparser.js:112-124 | Pops a tag, checks the names and pops the frame, in this order. |
| `XmlParser.OTXMLParser.OnStartEndElement` | chrome/oneteam/content/JavaScript/xmlparser.js:126-137 | Pops the frame and reports start and end with one resolution. |
| `XmlParser.OTXMLParser.Consume` | chrome/oneteam/content/JavaScript/xmlparser.js:311-844 | One character: the switch over about fifty states does what the transition table says, in every state and for every character. |
| `XmlParser.OTXMLParser.Parse` | chrome/oneteam/content/JavaScript/xmlparser.js:139-854 | One chunk: every character up to an error, then the flush; an error drops the rest of the chunk. |
| `XmlParser.RunConcat` | chrome/oneteam/content/JavaScript/xmlparser.js:147-152 | Reading two texts is reading the first and then the second, stopping where the first one stops. |
| `XmlSegmentation.CutOnce` | chrome/oneteam/content/JavaScript/xmlparser.js:846-854 | One cut that splits no reference changes neither the parser's state after the chunk nor any tree. |
| `XmlSegmentation.SegmentationIndependence` | chrome/oneteam/content/JavaScript/xmlparser.js:147-854 | Any number of such cuts, from any state: same parser, same trees, still without error. |
| `XmlSegmentation.OutsideReferencesIsSafe` | chrome/oneteam/content/JavaScript/xmlparser.js:513-522 | Cuts that split no reference of the raw stream are such cuts. |
| `XmlSegmentation.StanzasIgnoreSegmentation` | chrome/oneteam/content/JavaScript/xmlparser.js:147-854 | From the start of the stream: every way to cut the text outside references gives the stanzas of the uncut text. |
| `XmlSegmentation.TextCutIff` | chrome/oneteam/content/JavaScript/xmlparser.js:846-849 | A cut inside text leaves the trees as they were if and only if no reference lies across it. |
| `XmlSegmentation.RunKeepsBuffered` | chrome/oneteam/content/JavaScript/xmlparser.js:513-524 | Text is held back only while text is read, and CDATA only inside its section. |
| `XmlSegmentation.DataIsTail` | chrome/oneteam/content/JavaScript/xmlparser.js:513-524 | What is held back is the end of what was read. |
| `XmlDiscipline.TransitionShape` | chrome/oneteam/content/JavaScript/xmlparser.js:326-844 | Which states are inside a start tag, inside the root, and how the actions move between them. |
| `XmlDiscipline.ReservedLookup` | chrome/oneteam/content/JavaScript/xmlparser.js:54-66 | The prefixes "xml" and "xmlns" resolve to their own namespaces in every reachable frame stack. |
| `XmlDiscipline.StepKeepsDiscipline` | chrome/oneteam/content/JavaScript/xmlparser.js:93-137 | Frames above the base are the open tags, plus one exactly inside a start tag; no pop from the empty stack; calls stay balanced. |
| `XmlDiscipline.RunKeepsDiscipline` | chrome/oneteam/content/JavaScript/xmlparser.js:93-137 | The same over any text. |
| `XmlDiscipline.StreamIsDisciplined` | chrome/oneteam/content/JavaScript/xmlparser.js:139-854 | From the start of a stream, over any chunks without error, start and end calls nest with equal resolved names, and nothing is open outside a root. |
| `XmlDiscipline.EndTagMatchesIff` | chrome/oneteam/content/JavaScript/xmlparser.js:112-124 | An end tag is refused if and only if its name resolves differently from the innermost open tag's in that tag's frame; the same qualified name is always accepted. |
| `XmlText.EscapeIsEach` | chrome/oneteam/content/JavaScript/utils.js:473-483 | Escaping replaces each of the five special characters by its reference and nothing else. |
| `XmlNames.InnermostBinding` | chrome/oneteam/content/JavaScript/xmlparser.js:68-91 | A prefix stands for what the innermost frame that binds it says, and for nothing if none does. |
| `XmlNames.NamesAre` | chrome/oneteam/content/JavaScript/xmlparser.js:68-110 | With a prefix, element and attribute are in its namespace; without one, the element is in the default namespace and the attribute in none. |
| `XmlNames.StartTagBinds` | chrome/oneteam/content/JavaScript/xmlparser.js:54-66 | A start tag keeps its attributes in order but the dropped declarations, and its frame binds exactly the prefixes it declares, each to the last value. |
| `XmlMarkup.EscapedCanBeWritten` | chrome/oneteam/content/JavaScript/utils.js:473-495 | Any value, escaped, can stand in an attribute in either quote or between tags, and means itself. |
| `XmlPieces.RunAttribute` | chrome/oneteam/content/JavaScript/xmlparser.js:426-780 | An attribute in either quote, with any blanks before it and around its equals sign, is read as its name and its value with the references replaced, in the prolog and inside the root. |
| `XmlPieces.RunHead` | chrome/oneteam/content/JavaScript/xmlparser.js:385-480 | A start tag from its name to its end, however written: its name, its attributes and the prefixes they bind. |
| `XmlPieces.ValueRefusesBracket` | chrome/oneteam/content/JavaScript/xmlparser.js:755-780 | An angle bracket inside a value in either quote is refused. |
| `XmlPieces.RunComment` | chrome/oneteam/content/JavaScript/xmlparser.js:611-750 | A comment, in the prolog and inside the root, leaves no trace. |
| `XmlPieces.RunInstruction` | chrome/oneteam/content/JavaScript/xmlparser.js:348-394 | So does a processing instruction, the XML declaration among them. |
| `XmlPieces.DoctypeIsNotLeft` | chrome/oneteam/content/JavaScript/xmlparser.js:352-357 | A DOCTYPE in the prolog is not left at its end. |
| `XmlPieces.CdataDeliveredIff` | chrome/oneteam/content/JavaScript/xmlparser.js:679-815 | A CDATA section is delivered as it stands and left at its end if and only if its content ends in no bracket, or in three, six and so on; otherwise the section goes on. |
| `XmlRoundTrip.RunInside` | chrome/oneteam/content/JavaScript/xmlparser.js:526-845 | A written element, in the short or the long form and with any content, is read under any parent as exactly the element it means, and leaves the parser as it was. |
| `XmlRoundTrip.StanzaRoundTrip` | chrome/oneteam/content/JavaScript/xmlparser.js:513-845 | A stanza, however it is written, is delivered as the tree it means: names resolved in scope, values unescaped, character data and CDATA between two elements as one text, other markup without a trace. |
| `XmlRoundTrip.HeaderIsRead` | chrome/oneteam/content/JavaScript/xmlparser.js:311-512 | From the first character of a stream, over any prolog, to the end of its header: the header is recorded with its attributes, its prefixes are bound, the parser waits inside the root. |
| `XmlRoundTrip.UsualHeader` | chrome/oneteam/content/JavaScript/xmlparser.js:311-512 | The header that servers send, in either quote, is such a header. |
| `XmlRoundTrip.StreamRoundTrip` | chrome/oneteam/content/JavaScript/xmlparser.js:311-845 | A stream as far as it has come: header recorded, all stanzas delivered in order, what stands between them dropped. |
| `XmlRoundTrip.StreamEnds` | chrome/oneteam/content/JavaScript/xmlparser.js:112-124 | The end tag of the root ends the document and leaves the parser where it started. |
| `XmlRoundTrip.StanzaArrives` | chrome/oneteam/content/JavaScript/xmlparser.js:139-854 | A stanza for every way the transport may cut it outside references. |
| `XmlRoundTrip.StreamArrives` | chrome/oneteam/content/JavaScript/xmlparser.js:139-854 | A whole stream for every way the transport may cut it outside references. |
| `Socks5Streams.SOCKSBytestreamTarget.OnInputStreamReady` | chrome/oneteam/content/JavaScript/socks5.js:362-433 | The input callback of the target: gather, decide by state, report; the object can take its next callback and has not reported both outcomes. |
| `Socks5Streams.SOCKSBytestreamTarget.OnOutputStreamReady` | chrome/oneteam/content/JavaScript/socks5.js:435-487 | The output callback of the target: greeting, request, file blocks, and what follows a failed write; the same promise. |
| `Socks5Streams.SOCKSBytestreamTarget.Dial` | chrome/oneteam/content/JavaScript/socks5.js:317-345 | Dials the next address or reports failure. |
| `Socks5Streams.SOCKSBytestreamTarget.Close` | chrome/oneteam/content/JavaScript/socks5.js:347-360 | Closing keeps an aborted peer as it is and tells a failed handshake from a finished transfer. |
| `Socks5Streams.SOCKSBytestreamInitiator.OnInputStreamReady` | chrome/oneteam/content/JavaScript/socks5.js:586-661 | The input callback of the initiator: greeting, methods, request in two parts; the object can take its next callback and has not reported both outcomes. |
| `Socks5Streams.SOCKSBytestreamInitiator.OnOutputStreamReady` | chrome/oneteam/content/JavaScript/socks5.js:663-721 | The output callback of the initiator: method, refusal, reply and readiness, file blocks; the same promise. |
| `Socks5Streams.SOCKSBytestreamInitiator.OnSocketAccepted` | chrome/oneteam/content/JavaScript/socks5.js:542-565 | Listening ends; the first connection starts with the greeting, a second one is refused and changes nothing. |
| `Socks5EndToEnd.MoveKeepsInv` | chrome/oneteam/content/JavaScript/socks5.js:362-721 | Every move of either peer, of the transport and of the service keeps the invariant: what one wrote is what the other took and what is on its way. |
| `Socks5EndToEnd.TargetReadsKeepsInv` | chrome/oneteam/content/JavaScript/socks5.js:362-433 | However few bytes are available at a time, the target takes its replies to the byte. |
| `Socks5EndToEnd.InitiatorReadsKeepsInv` | chrome/oneteam/content/JavaScript/socks5.js:586-636 | However few bytes are available at a time, the initiator accepts greeting and request. |
| `Socks5EndToEnd.ReceivedIsPrefix` | chrome/oneteam/content/JavaScript/socks5.js:362-433 | No peer has failed, exactly 2+5+42 reply bytes precede the file, and what was received is a beginning of the file. |
| `Socks5EndToEnd.CompleteHasAll` | chrome/oneteam/content/JavaScript/socks5.js:418-430 | When the target reports completion it has the whole file. |
| `Socks5EndToEnd.MoveDecreases` | chrome/oneteam/content/JavaScript/socks5.js:362-721 | Every move decreases the number of bytes to take, bytes to send and callbacks to come. |
| `Socks5EndToEnd.NeverStuck` | chrome/oneteam/content/JavaScript/socks5.js:362-721 | Until both peers are complete some move is possible. |
| `Socks5EndToEnd.TransferIsCorrect` | chrome/oneteam/content/JavaScript/socks5.js:362-721 | In every interleaving and fragmentation: no failure, prefix, whole file at completion, bounded number of moves, and a run that cannot go on is complete on both sides. |
| `Socks5Outcomes.TargetKeepsOutcome` | chrome/oneteam/content/JavaScript/socks5.js:306-487 | Against any other side, with failures and aborts, a target keeps its account of what it has reported. |
| `Socks5Outcomes.TargetOutcomes` | chrome/oneteam/content/JavaScript/socks5.js:306-487 | Never readiness and failure, each at most once; addresses dialled in order; failure only when all were dialled. |
| `Socks5Outcomes.ReadyMeansGranted` | chrome/oneteam/content/JavaScript/socks5.js:383-410 | Readiness is reported exactly at the end of a granting reply of any address type, whose whole length was read. |
| `Socks5Outcomes.SilentAfterAbort` | chrome/oneteam/content/JavaScript/socks5.js:306-315 | Nothing is reported after an abort. |
| `Socks5Outcomes.TargetDecides` | chrome/oneteam/content/JavaScript/socks5.js:317-487 | Every callback brings a negotiating target closer to a decision. |
| `Socks5Outcomes.TargetNeverStuck` | chrome/oneteam/content/JavaScript/socks5.js:317-487 | Without a decision there is a callback to come. |
| `Socks5Outcomes.TargetDecidesInTime` | chrome/oneteam/content/JavaScript/socks5.js:317-487 | Over any run of callbacks a negotiating target takes at most as many as its bound, and where no callback is to come it has reported exactly one outcome. |
| `Socks5Outcomes.FreshTargetDecides` | chrome/oneteam/content/JavaScript/socks5.js:306-487 | A fresh target with n addresses decides within 500 n callbacks. |
| `Socks5Outcomes.InitiatorKeepsOutcome` | chrome/oneteam/content/JavaScript/socks5.js:571-721 | The initiator keeps its account of what it has reported. |
| `Socks5Outcomes.ReadyMeansRequested` | chrome/oneteam/content/JavaScript/socks5.js:606-689 | An initiator reports readiness only after a greeting that offers method 0 and a request for exactly its own address with port 0. |
| `Socks5Handshake.TargetSpeech` | chrome/oneteam/content/JavaScript/socks5.js:317-460 | Against any other side a dialling peer writes 5 1 0 and the request for its address on every connection, in this order, and nothing else up to its readiness. |
| `Socks5Handshake.MethodDecides` | chrome/oneteam/content/JavaScript/socks5.js:383-389 | The two bytes 5 0 lead on to the request, any other two close the connection. |
| `Socks5Handshake.GrantMakesReady` | chrome/oneteam/content/JavaScript/socks5.js:390-410 | Every granting reply, of any address type and in any pieces, makes a dialling peer ready, exactly when all of it has come and without taking what follows. |
| `Socks5Handshake.OtherHeadCloses` | chrome/oneteam/content/JavaScript/socks5.js:390-404 | Any other reply closes the connection as soon as its first five bytes have come. |
| `Socks5Handshake.InitiatorSpeech` | chrome/oneteam/content/JavaScript/socks5.js:542-689 | Against any other side a listening peer writes 5 0 and then the reply with its address, and nothing else up to its readiness. |
| `Socks5Handshake.GreetingIsRead` | chrome/oneteam/content/JavaScript/socks5.js:606-618 | Every greeting, with any number of methods and in any pieces, is read to the byte, and accepted if and only if it offers method 0. |
| `Socks5Handshake.GreetingIsAnswered` | chrome/oneteam/content/JavaScript/socks5.js:668-678 | The answer is 5 0, or 5 255 and the end of the connection. |
| `Socks5Handshake.OwnRequestIsGranted` | chrome/oneteam/content/JavaScript/socks5.js:619-689 | A request for the peer's own address at port 0, in any pieces, is granted and makes the peer ready. |
| `Socks5Files.FileIsSent` | chrome/oneteam/content/JavaScript/socks5.js:290-297 | From the call for a file on, in whatever state and for both kinds of peer: the bytes written are a beginning of the file, and without an abort or a failed write completion is reported only when they are the whole file. |
| `Socks5Files.BlockGoesOut` | chrome/oneteam/content/JavaScript/socks5.js:469-487 | A writable callback writes the next block of up to 4096 bytes and asks for the next; with nothing left it closes the connection. |
| `Socks5Files.WholeFileGoesOut` | chrome/oneteam/content/JavaScript/socks5.js:469-487 | So many callbacks as there are blocks, and one more, send the whole file and close the connection. |
| `Socks5Files.FileIsReceived` | chrome/oneteam/content/JavaScript/socks5.js:418-426 | What has been received is what has been taken off the connection. |
| `Socks5Listener.ListenerOutcomes` | chrome/oneteam/content/JavaScript/socks5.js:528-721 | A listening peer over any run, aborts before its connection included: never readiness and failure, each at most once, nothing before a connection. |
| `Socks5Listener.SilentAfterAbortIff` | chrome/oneteam/content/JavaScript/socks5.js:528-565 | A listening peer reports nothing after an abort, whatever comes, if and only if it had accepted a connection before. |
| `Socks5Listener.LateConnection` | chrome/oneteam/content/JavaScript/socks5.js:528-565 | The run that reports after an abort: a connection comes in and is lost. |
| `Socks5Listener.QuietOnceTakenOver` | chrome/oneteam/content/JavaScript/socks5.js:290-315 | A dialling peer that was aborted, or on which the file was started, in whatever state of the handshake, never reports readiness or failure again. |
| `Socks5Service.SenderToken.SendFileStep` | chrome/oneteam/content/JavaScript/socks5.js:118-144 | The answer to an offer: refused, taken up directly, through a proxy, or through a host that is not known, where the step ends after the abort. |
| `Socks5Service.SenderToken.SendFileStep2` | chrome/oneteam/content/JavaScript/socks5.js:146-156 | The answer to the activation of a proxy. |
| `Socks5Service.SenderToken.OnBytestreamReady` | chrome/oneteam/content/JavaScript/socks5.js:229-247 | Readiness joins the answer, or asks the proxy to activate. |
| `Socks5Service.SenderAccount` | chrome/oneteam/content/JavaScript/socks5.js:118-264 | Over any run from the offer on: the transfer starts once for a direct take-up with readiness, in either order, and once for every granted activation; every loss of a stream and every denied activation is reported; a refused transfer never starts. |
| `Socks5Service.StartsOnce` | chrome/oneteam/content/JavaScript/socks5.js:118-264 | Unless a direct connection was accepted after the answer, it starts at most once and asks for at most one activation. |
| `Socks5Service.StartsTwiceIff` | chrome/oneteam/content/JavaScript/socks5.js:118-264 | At most twice, and twice if and only if a direct connection was accepted after the answer and two activations are granted. |
| `Socks5Service.LateStreamStarts` | chrome/oneteam/content/JavaScript/socks5.js:118-264 | Two runs of a late direct stream that gets through: two starts, and a start after the stream to the proxy was lost. |
| `Socks5Service.SenderToken.OnBytestreamFailure` | chrome/oneteam/content/JavaScript/socks5.js:260-264 | A lost stream of a sender is reported at once, whatever else is under way. |
| `Socks5Service.FailureCoincidesIff` | chrome/oneteam/content/JavaScript/socks5.js:118-264 | A failure is reported along with a start, or along with a rejection, if and only if the direct stream was lost before the answer, or a connection was accepted after the answer and one of the reports that can then go wrong did. |
| `Socks5Service.FailureThenStart` | chrome/oneteam/content/JavaScript/socks5.js:118-264 | Two runs with a failure and a start: the direct stream lost before the answer, and lost on a connection accepted after it. |
| `Socks5Service.FailureAndRejection` | chrome/oneteam/content/JavaScript/socks5.js:118-264 | The same two losses along with a rejection. |
| `Socks5Service.EitherOrder` | chrome/oneteam/content/JavaScript/socks5.js:118-144 | Both orders of answer and readiness end in the same state, started once. |
| `Socks5Service.ReceiverToken.OnBytestreamReady` | chrome/oneteam/content/JavaScript/socks5.js:204-227 | The first stream that gets through: all others are aborted, the offer is answered with its host, the list of streams is gone, the transfer starts. |
| `Socks5Service.ReceiverToken.OnBytestreamFailure` | chrome/oneteam/content/JavaScript/socks5.js:260-264 | Failures count down the pending connections. |
| `Socks5Service.StartsOrFails` | chrome/oneteam/content/JavaScript/socks5.js:193-264 | Over any run from the offer on a receiver starts once, on the one stream it named in its only answer and with all others aborted, or fails once; it fails exactly when every stream failed, and has done one of both when no stream is left. |
| `EditDiff.Zero` | chrome/oneteam/content/JavaScript/edit.js:69-77 | Halving gives exactly n zeros. |
| `EditDiff.Diff.Find` | chrome/oneteam/content/JavaScript/edit.js:58-98 | The memoised recursion returns what the plain recursion does, and every table entry is right. |
| `EditDiff.MasksAgree` | chrome/oneteam/content/JavaScript/edit.js:58-98 | The masks have the lengths of the word lists, select the same words, and have exactly w ones. |
| `EditDiff.NoneIsLonger` | chrome/oneteam/content/JavaScript/edit.js:58-98 | Any two masks that select the same words select at most w. |
| `EditDiff.OneMoreWord` | chrome/oneteam/content/JavaScript/edit.js:86-95 | One more word on either side adds at most one. |
| `EditDiff.SplitNode` | chrome/oneteam/content/JavaScript/edit.js:112-134 | The loop cuts one text node into its maximal runs. |
| `EditDiff.RunsKeepText` | chrome/oneteam/content/JavaScript/edit.js:112-134 | The runs keep the text, leave exactly the common words unhighlighted, and alternate. |
| `EditDiff.Unsplit` | chrome/oneteam/content/JavaScript/edit.js:103-136 | Every text node is split again and rebuilt with its own part of the mask. |
| `EditDiff.Split` | chrome/oneteam/content/JavaScript/edit.js:42-53 | The words of all text nodes in order, each text cut at its word boundaries. |
| `EditDiff.ChunksAreWords` | chrome/oneteam/content/JavaScript/edit.js:23-53 | The chunks of a text are nonempty, each of one kind of characters, and neighbours differ in kind. |
| `EditDiff.SplitKeepsText` | chrome/oneteam/content/JavaScript/edit.js:42-53 | The chunks of a text joined are the text. |
| `EditDiff.RunsOfAllKeepText` | chrome/oneteam/content/JavaScript/edit.js:103-136 | Over all text nodes: each keeps its text, and the plain text is the common words. |
| `EditDiff.HighlightDiff` | chrome/oneteam/content/JavaScript/edit.js:138-143 | Both messages keep their texts, what is not highlighted is the same on both sides, and no choice of common words leaves more unhighlighted. |
| `JnRelayTable.PairingIsInvolution` | src/components/src/jnrelay/otJNRelay.cpp:71 | Pairing stays inside one relay, has no fixed point and undoes itself. |
| `JnRelayTable.RelayTable.OnPacket` | src/components/src/jnrelay/otJNRelay.cpp:45-76 | A packet learns or must match the peer, moves the relay's deadline, and goes to the paired socket's peer if that is known. |
| `JnRelayTable.PacketStaysInPair` | src/components/src/jnrelay/otJNRelay.cpp:52-75 | A learnt peer is never replaced; a packet leaves only through the other half of its pair. |
| `JnRelayTable.PacketGoesOnIff` | src/components/src/jnrelay/otJNRelay.cpp:52-75 | A packet goes on if and only if it has content, its sender is the first or the learnt one, and the other half of its pair is known; a welcome sender is learnt and prolongs its own relay only, an unwelcome one changes nothing. |
| `JnRelayTable.SameAddrIff` | src/components/src/jnrelay/otJNRelay.cpp:55-66 | Internet addresses match exactly when their compared parts are equal. |
| `JnRelayTable.NewRelayLives` | src/components/src/jnrelay/otJNRelay.cpp:141-184 | A new relay is in the table without peers, and a pass keeps it exactly while its deadline is to come. |
| `JnRelayTable.RelayTable.DropRelay` | src/components/src/jnrelay/otJNRelay.cpp:91-99 | Closes four sockets and moves the later entries down, sockets and peers together. |
| `JnRelayTable.RelayTable.Compact` | src/components/src/jnrelay/otJNRelay.cpp:88-103 | In place: the table becomes the relays that have not expired, the closed sockets those of the others. |
| `JnRelayTable.KeptIff` | src/components/src/jnrelay/otJNRelay.cpp:88-103 | An entry stays, with its socket and peer, if and only if its relay had not expired when the pass began. |
| `JnRelayTable.KeptIsWhole` | src/components/src/jnrelay/otJNRelay.cpp:88-103 | A pass keeps whole relays. |
| `JnRelayTable.NothingIsLost` | src/components/src/jnrelay/otJNRelay.cpp:88-103 | A pass closes exactly the sockets it drops. |
| `JnRelayTable.RelayTable.Append` | src/components/src/jnrelay/otJNRelay.cpp:141-184 | Four new sockets without peers make the last relay, unless the table is full. |
| `JnRelay.MoveKeepsInv` | src/components/src/jnrelay/otJNRelay.cpp:31-187 | Every step of the relay thread and of the allocator keeps the table sound; it keeps the invariant of the one thread and its monitor if and only if it is not a call on an empty table. |
| `JnRelay.ServeLearns` | src/components/src/jnrelay/otJNRelay.cpp:45-76 | After a round of packets every socket has the peer it had, or else the first sender of the round. |
| `JnRelay.RelayDelivers` | src/components/src/jnrelay/otJNRelay.cpp:45-76 | Every packet of a round goes through the other half of its pair to the peer known there, if it has content, comes from its socket's own peer and the other half has been heard before it; otherwise nowhere. |
| `JnRelay.WritesWhileParked` | src/components/src/jnrelay/otJNRelay.cpp:137-187 | With one relay thread, the allocator changes the table only while the thread waits in the monitor. |
| `JnRelay.NoLostWakeup` | src/components/src/jnrelay/otJNRelay.cpp:80-86 | With one relay thread, a waiting allocator is always notified after a bounded number of thread moves, and then goes on. |
| `JnRelay.TableIsSafe` | src/components/src/jnrelay/otJNRelay.cpp:31-187 | In every interleaving in which every call met a relay the slot count is 1 modulo 4 and at most 21, both sides never change the table at once, and every socket ever made is open or closed exactly once. |
| `JnRelay.OneThreadIff` | src/components/src/jnrelay/otJNRelay.cpp:134-187 | Over any run there is one relay thread at the end if and only if every call of the run met a nonempty table. |
| `JnRelay.SecondThreadIsReachable` | src/components/src/jnrelay/otJNRelay.cpp:134-135 | A run that ends with two relay threads. |
| `Jid.EscapeRoundTrip` | chrome/oneteam/content/JavaScript/xmpptypes.js:114-162 | Unescaping an escaped text gives it back, for every text. |
| `Jid.EscapedIsClean` | chrome/oneteam/content/JavaScript/xmpptypes.js:136-140 | An escaped node is left alone from then on. |
| `Jid.MaybeEscapeFixes` | chrome/oneteam/content/JavaScript/xmpptypes.js:136-140 | The result can always be a node, and equals the text if and only if the text could. |
| `Jid.NodeOfText` | chrome/oneteam/content/JavaScript/xmpptypes.js:32-38 | The node of a text is what stands before its first at sign, as it is if it could be an escaped node, and otherwise escaped so that it reads as what stood there. |
| `Jid.ShownAsTypedIff` | chrome/oneteam/content/JavaScript/xmpptypes.js:32-108 | The user is shown a text with a node as it was typed if and only if the node does not look like an escaped one that reads otherwise, and no lone slash ends the text. |
| `Jid.FaithfulIff` | chrome/oneteam/content/JavaScript/xmpptypes.js:32-44 | Parsing the full form gives the parts back if and only if: the form is not empty, the domain holds no slash, a node is in escaped form, and without a node neither domain nor resource holds an at sign. |
| `Jid.ParsedIsFaithfulIff` | chrome/oneteam/content/JavaScript/xmpptypes.js:32-44 | What is parsed from a text agrees with a parse of its full form, but exactly for a lone slash and for texts that start with an at sign and hold another or nothing. |
| `Jid.AmbiguousExample` | chrome/oneteam/content/JavaScript/xmpptypes.js:32-53 | The family of texts that leave an entry behind whose full form parses to other parts. |
| `Jid.JidCache.Intern` | chrome/oneteam/content/JavaScript/xmpptypes.js:43-53 | Keys are full forms; an entry is never replaced. |
| `Jid.JidCache.FromParts` | chrome/oneteam/content/JavaScript/xmpptypes.js:39-53 | With an agreeing cache and readable parts the object has exactly these parts, the user is shown the node that was given, and the cache still agrees; unreadable new parts break the agreement. |
| `Jid.JidCache.FromString` | chrome/oneteam/content/JavaScript/xmpptypes.js:23-53 | With an agreeing cache every unambiguous text gives what the parser gives, whether it was cached or not; its node reads as what was typed. |
| `AudioBuffers.AudioFilter.OutputData` | src/components/src/audio/otAudioFilter.cpp:61-89 | The frames passed on and the bytes left pending are those of all bytes seen so far, whether copied or passed where they are. |
| `AudioBuffers.FramesConserve` | src/components/src/audio/otAudioFilter.cpp:61-89 | Frames and residue together are the input. |
| `AudioBuffers.ChunksDoNotMatter` | src/components/src/audio/otAudioFilter.cpp:61-89 | However the bytes are chunked, the same frames come out. |
| `AudioOutput.OutputStream.FillBuffer` | src/components/src/audio/otMacAudioStream.cpp:521-560 | The saved tail goes first; data goes directly, and what does not fit is saved. |
| `AudioOutput.OutputStream.OutputReady` | src/components/src/audio/otMacAudioStream.cpp:498-519 | One request of the device: tail, then the buffers delivered for the missing bytes. |
| `AudioOutput.RequestConserves` | src/components/src/audio/otMacAudioStream.cpp:498-560 | Played bytes and new tail are old tail and accepted bytes; exactly the requested bytes are played if whole frames came in. |
| `AudioOutput.RunConserves` | src/components/src/audio/otMacAudioStream.cpp:498-571 | Over any run the bytes played, followed by the saved tail, are the bytes accepted. |
| `HistoryPaging.GetLastMessages` | chrome/oneteam/content/JavaScript/history.js:730-759 | A page holds exactly the newest unread messages, as many as asked for; a short page means nothing is left and so does a false flag. |
| `HistoryPaging.ReadOne` | chrome/oneteam/content/JavaScript/history.js:731-757 | One turn of the loop, over empty threads too, loses nothing and moves the cursor back. |
| `HistoryPaging.PagesAreSuffix` | chrome/oneteam/content/JavaScript/history.js:695-760 | Successive pages together are a suffix of the visible history, in order. |
| `HistoryPaging.ReadAll` | chrome/oneteam/content/JavaScript/history.js:695-760 | Asking as long as there is more terminates and gives the whole visible history. |
| `HistoryPaging.WalkTwice` | chrome/oneteam/content/JavaScript/history.js:730-759 | Two calls are one call for both pages: same cursor, same messages. |
| `HistoryPaging.StopsAtShown` | chrome/oneteam/content/JavaScript/history.js:735-757 | A full page ends right behind the oldest message it shows. |
| `HistoryPaging.FlagIsTruthfulIff` | chrome/oneteam/content/JavaScript/history.js:759 | At every cursor over a nonempty beginning of the archive a true flag has something to show behind it, if and only if the oldest message of the archive is one to show. |
| `HistoryPaging.ReaderIsToldTruthIff` | chrome/oneteam/content/JavaScript/history.js:695-760 | A reader of any archive who starts at the end and asks for any number of messages is told the truth, for every number, if and only if the oldest message is one to show or there is nothing at all. |
| `HistoryPaging.NothingToRead` | chrome/oneteam/content/JavaScript/history.js:730-759 | In an archive with nothing to show the flag is right exactly after a call that asked for a message, or if there is at most one thread and it is empty. |
| `HistoryPaging.LyingPage` | chrome/oneteam/content/JavaScript/history.js:759 | Otherwise: the run that gets the whole visible history with a true flag. |
| `HistoryPaging.BoundCarriesOver` | chrome/oneteam/content/JavaScript/history.js:744-746 | In an archive ordered by time, once a bounded call has asked for a message at all the calls after it need no bound. |
| `HistoryPaging.BoundedThenUnbounded` | chrome/oneteam/content/JavaScript/history.js:695-760 | A bounded first page and the unbounded pages after it are together the newest messages older than the bound, in order, none twice. |

## Left out

- Rounding and the range of floats: the codec is modelled over exact reals, so the identities hold up to rounding there.
- Widths of machine integers: counters, positions and times are unbounded; bytes are 0 to 255, and the packers' 8-bit masks are explicit.
- Levinson.Levdurb: asks for nonzero intermediate energies where r[0] passes the threshold, since the code divides by them unguarded; LagWindow.Predictor shows that the encoder always meets this.
- StageLaws.RaisedKeepsBelow: compares energies over the weighted memory that the search works on; the decoder builds the vector over the unweighted one.
- Quantisers.SplitIsGloballyNearest: asks that each part has an entry nearer than the search's initial bound of 1e37, as the code silently keeps entry 0 otherwise.
- UlpFrame.EncodeFrame: takes the parameters as one list in the order in which the classes visit them; their names and separate arrays are not modelled.
- Start state coding, enhancement, packet loss concealment, LSF conversion and interpolation of the codec: their claims rest on numerical analysis.
- XmlParser.OTXMLParser.Parse: starts at the first decoded character; character set detection (states 0 to 10), which re-decodes the chunk through a foreign converter, and the line and column counters of error reports are not modelled.
- XmlParser.LastColon: takes names as plain strings; the Unicode line separators that a dot in a regular expression does not match are ignored.
- StanzaBuilder.SocketHandler.OnStartElement: keeps the attributes as the list of assignments in order; the DOM's merging of equal names and its exceptions on invalid names, and exceptions thrown by the listener, are not modelled.
- XmlSegmentation.TextCutIff: states the converse for text up to the next tag; a stream header nested in a stanza would discard the tree and with it the difference.
- XmlRoundTrip.StanzaRoundTrip: asks for markup as XML writes it: names without markup characters, comments without two hyphens in a row, processing instructions without a question mark inside, CDATA content that its section delivers, no rebinding of "xmlns" and no stream header inside.
- Socks5EndToEnd.TransferIsCorrect: covers a transfer from the listening side to the dialling side over one connection, without abort or transport failure; files are read in full blocks.
- Socks5Service.SenderAccount: the user's own abort of a transfer is not modelled, nor a proxy whose name is that of a member of every JavaScript object.
- Socks5Service.StartsOrFails: the user's own abort is not modelled.
- Socks5Peers: exceptions thrown by the service's callbacks are not modelled.
- EditDiff.HighlightDiff: merging highlighting of an earlier edit is the DOM's; word characters are letters, digits and underscore of ASCII, as a regular expression's \w without Unicode mode.
- JnRelay.TableIsSafe: one allocator, successful socket creation, no shutdown; what a second thread does after a call on an empty table is not modelled, and such runs are excluded by name.
- JnRelayTable.RelayTable.Compact: claims nothing about the deadlines that survivors find after a pass, because the deadlines are not moved with the sockets.
- Jid.JidCache.FromString: keys that name members of every JavaScript object, such as "constructor", are not modelled.
- AudioOutput.RequestConserves: asks for buffers of at most a frame and a device buffer that holds the request.
- HistoryPaging.GetLastMessages: over a fixed archive; an edit is hidden, and its attachment to the message it replaces is not modelled.
- G.711, menus, notifications, styles, module loading, data forms, localisation and preferences: user interface, reflection, or finite tables.
