# A verified model of rPod's core logic

rPod is an iPod-like music player for a Raspberry Pi. Most of it is glue around libraries, but several pieces carry
an algorithm or a protocol of their own. This project models those pieces in Dafny and proves what they promise.
`dafny verify dfyconfig.toml` checks all of it.

Where the C changes fields, arrays or buffers step by step, a class or a method with loops does the same here and is
proved against a function of values; where threads or callbacks interleave, the sections under the lock (or the
callbacks) are the steps of a relation, and the results hold over every run of it.

* **JSON and UTF-8** (`Utf8`, `Doubles`, `JsonWriter`, `JsonReader`, `JsonTrees`, `JsonRoundTrip`, `JsonUtf8`): the
  writer of `web/json.c`, the reader of `src/ha/json_read.c`, and that the reader undoes the writer on every balanced
  sequence of calls; RFC 8259 for the grammar, section 4 of RFC 3629 for UTF-8, IEEE 754 for the numbers.
  `JsonGrammar` is that grammar on its own, with what each text means, and `JsonNumbers`, `JsonStrings` and `JsonDocs`
  prove that the reader takes exactly its documents, each for what it means.
* **Fourier transform** (`FourierAlgebra`, `Fft`): the in-place radix-2 loops of `src/audio/visualizer.c` leave the
  discrete Fourier transform, for every size that is a power of two, in exact complex arithmetic.
* **Covers** (`PngFilter`, `Binning`, `Resampler`, `Thumbnails`): PNG unfiltering undoes the filters of sections 9.2
  and 9.4 of the PNG specification; the downsampler's every output pixel is the rounded mean of just the source pixels
  that go into it.
* **Video conversion jobs** (`VideoNames`, `VideoJobs`, `VideoOutcomes`, `VideoList`): over all interleavings of calls,
  worker and crashes, an accepted upload and its job file stay on disk until the job's end, and the list tells how it
  ended.
* **Bluetooth** (`BluetoothCalls`, `BluetoothSafety`, `BluetoothEffects`, `BluetoothSnapshot`, `Bluetooth`):
  asynchronous calls tagged with a generation, the books on pairings and operations that they keep, and that discovery,
  taps, replies and snapshots bring about what they are for.
* **Home Assistant** (`HomeAssistant` and `HomeAssistantScreen`, with the class in `HomeAssistantClient`): nothing stale
  is shown, what is shown is what was told, and every action goes where it was meant.
* **ListenBrainz** (`ListenQueue`, with the classes in `Listens`): the durable queue under a racing flush.
* **Click wheel** (`WheelFraming`, `WheelEvents`, `WheelDaemon`, `Scroll`, `GestureRules` and `Gestures`): framing that
  synchronises itself, events that rebuild the state, acceleration that loses nothing, and what presses come to mean.
* **Ordering, picking, gauging** (`AlphaSort`, `Quiz`, `Gauge`).

`Wrappers`, `Reals`, `Powers` and `Rings` hold the few shapes and facts the others share.

## What the proofs found

Each of these is a place where the code does not do what it is for. A lemma gives the exact condition under which it
does, and another an input, a run or a reachable state in which it does not.

* An uploaded video's name is cut at 251 bytes, which can split a character; the name it becomes then fails the check
  that recovery makes, so after a restart the job is dropped (`VideoNames.TargetOk`, `VideoNames.CutCanSplit`).
* A cancel of a running conversion is always answered as a success. Short of a crash, the video can come to be installed
  all the same exactly if the worker was between its look at the flag and the end of the installing, or done with it
  (`VideoJobs.LateCancel`, `VideoJobs.InstalledAllTheSame`).
* A crash forgets a cancel exactly if the upload and its job file are still there (`VideoJobs.CrashForgetsCancel`,
  `VideoJobs.CrashAfterCancel`, `VideoJobs.TakenUpAgain`).
* The Bluetooth mirror's pairing count is stranded when bluetoothd comes anew during a pairing and the request for a
  snapshot cannot be sent; the search then does not resume (`BluetoothSafety.FetchOk`, `BluetoothSafety.LostSnapshot`).
* When the listen queue's file is full, lines pushed out during a flush make the flush remove lines it did not post
  (`ListenQueue.RemovesWhatItPosted`, `ListenQueue.LostUnposted`).
* The downsampler's window is computed with casts that can truncate; it always lies inside the source
  (`Binning.CropInside`), and fills it exactly if the height for the whole width fits, or is seen not to fit after its
  cast (`Binning.CropFills`, `Binning.CropMisses`). It fills it whenever the source's width times the output's height
  is below 2^31 (`Binning.SmallFills`), so for every source of the decoders, at most 65500 wide, and every output of up
  to 32000 rows.
* The downsampler's guard against sums of more than 32 bits is a product in 64 bits that can itself wrap around. It is
  right exactly for the sizes whose product does not wrap to a small one, and so for all that the decoders take
  (`Resampler.TakesOrWraps`, `Resampler.DecodersFit`, `Resampler.WrapsAround`).
* JSON integers are read as doubles: what was printed reads back unchanged exactly if its strings are UTF-8 and its
  integers have at most 53 bits before their trailing zeros (`JsonRoundTrip.LosslessRoundTrip`, `Doubles.WholeComesBack`).

An overlong UTF-8 form of zero ends a name's comparison in `src/ui/alpha_sort.c`; the order is total all the same
(`AlphaSort.OrderZero`).

## Model

| member | source | states |
|---|---|---|
| `Utf8.SeqLen` | web/json.c:89-119 | the length of the well-formed sequence at the front, at most 4 and within the text, 0 if none |
| `Utf8.Utf8Seq` | web/json.c:89-119 | the loop with its early exits computes exactly that length, and a NUL ends a sequence |
| `Utf8.EncodeAccepted` | src/ha/json_read.c:74-95 | what the encoder makes of any scalar value is accepted whole and spells that value, whatever follows |
| `Utf8.AcceptedIsEncoded` | web/json.c:89-119 | what is accepted is the encoding of a scalar value: no surrogate, overlong form or number too large |
| `Utf8.AcceptsExactlyScalars` | web/json.c:89-119 | a text starts with an accepted sequence if and only if it starts with the encoding of a scalar value |
| `Utf8.Utf8Valid` | web/json.c:122-133 | the validator's walk accepts exactly well-formed texts |
| `Utf8.SanitizeValid` | web/json.c:135-172 | replacing stray bytes leaves well-formed UTF-8, and changes nothing if and only if it was well-formed |
| `JsonWriter.EscapeNext` | web/json.c:135-172 | one step of the escaping loop: what it puts and how far it goes is the escaped text's next piece |
| `JsonWriter.Writer.PutBytes` | web/json.c:21-42 | after a put the buffer holds what it held and the new bytes, or the error flag is set for good |
| `JsonWriter.Writer.MakeRoom` | web/json.c:26-38 | the buffer is doubled until there is room, and keeps what it holds; the allocation may fail |
| `JsonWriter.Writer.Separate` | web/json.c:51-61 | a comma exactly before a value that is neither first in its container nor after a key |
| `JsonWriter.Writer.OpenWith` | web/json.c:63-73 | a bracket opens a level with nothing in it yet; a level too deep sets the error flag |
| `JsonWriter.Writer.CloseWith` | web/json.c:75-81 | the bracket, and one level less; at the outermost level only the bracket |
| `JsonWriter.Writer.PutEscaped` | web/json.c:135-172 | the string between quotes, escaped, each byte that starts no UTF-8 sequence replaced |
| `JsonWriter.Writer.Key` | web/json.c:174-180 | a key with its comma and colon, and no comma before what follows |
| `JsonWriter.Writer.Str` | web/json.c:182-186 | a string value in its place |
| `JsonWriter.Writer.Int` | web/json.c:188-194 | an integer value in its place, in decimal |
| `JsonWriter.Writer.Bool` | web/json.c:208-212 | true or false in its place |
| `JsonWriter.Writer.Null` | web/json.c:214-218 | null in its place |
| `JsonReader.PutUtf8` | src/ha/json_read.c:74-95 | the bytes put are the value's encoding, and how many they are |
| `JsonReader.ReadHex4` | src/ha/json_read.c:55-72 | four hex digits of either case, or a refusal |
| `JsonReader.ReadString` | src/ha/json_read.c:99-168 | the unescaped text is shorter than the text it was read from |
| `JsonReader.Reader.UnescapeUnicode` | src/ha/json_read.c:121-151 | a surrogate pair becomes its code point, a lone half U+FFFD, and the cursor is past just what was used |
| `JsonReader.Reader.Unescape` | src/ha/json_read.c:113-159 | one escape puts what it stands for, in no more bytes than it took, or is refused |
| `JsonReader.Reader.ReadStr` | src/ha/json_read.c:99-168 | the string and the cursor are those of the grammar, and the buffer taken beforehand is never outgrown |
| `JsonReader.Reader.Literal` | src/ha/json_read.c:246-255 | a word is taken whole or not at all |
| `JsonReader.Reader.Number` | src/ha/json_read.c:299-327 | a number's text, up to the buffer's size, is the double nearest to what it spells, if it is a number and finite; what it spells is `JsonNumbers.NumberReads` |
| `Doubles.NearestIsNear` | src/ha/json_read.c:315-321 | rounding a decimal to a double moves it by at most one 2^53rd of it, or half the smallest double |
| `Doubles.NothingNearer` | src/ha/json_read.c:315-321 | what a number is read as is a double, and no double is nearer to it |
| `Doubles.WholeComesBack` | src/ha/json_read.c:315-321 | of the integers of up to 64 bits just those with 53 bits and zeros after them are doubles |
| `JsonReader.Reader.ParseKey` | src/ha/json_read.c:187-244 | a member's key and colon with the space around them, nothing for an array |
| `JsonReader.Reader.ParseChild` | src/ha/json_read.c:187-244 | one child with its key, and the depth back where it was |
| `JsonReader.Reader.ParseChildren` | src/ha/json_read.c:187-244 | all children up to the closing bracket, in order, or a refusal |
| `JsonReader.Reader.ParseContainer` | src/ha/json_read.c:187-244 | a container within the depth limit, its children in order |
| `JsonReader.Reader.ParseValue` | src/ha/json_read.c:257-330 | any value, as the grammar reads it, with the cursor after it |
| `JsonReader.ParseText` | src/ha/json_read.c:332-349 | a text is accepted if and only if `Parse` takes it, which `JsonDocs.ReadsExactlyJson` says of which texts and for what |
| `JsonNumbers.NumberReads` | src/ha/json_read.c:315-321 | every number of the grammar reads as what it is worth: its digits before the point and the tenths behind it, times its power of ten, negative after a minus |
| `JsonNumbers.OnlyNumbersRead` | src/ha/json_read.c:315-321 | and whatever reads as a number is one of the grammar, so any other text of number characters is refused |
| `JsonNumbers.WorthIs` | src/ha/json_read.c:315-321 | a number's worth is all its digits as one integer, times ten to the exponent less the digits behind the point |
| `JsonNumbers.ShiftedIs` | src/ha/json_read.c:315-321 | where moving the point is multiplying with a power of ten, or dividing by one |
| `JsonNumbers.FractionIs` | src/ha/json_read.c:315-321 | digits behind the point are their integer over ten to their number |
| `JsonNumbers.NumberReadsOn` | src/ha/json_read.c:299-327 | a number of up to 39 characters that is finite is read from the front of a text, and leaves what follows |
| `JsonNumbers.NumberStuck` | src/ha/json_read.c:308-320 | a longer one, or one that rounds to infinity, is refused or cut where more of it follows |
| `JsonStrings.EscapesAgree` | src/ha/json_read.c:117-123 | the escapes by letter are exactly the eight of the grammar, each for its byte |
| `JsonStrings.HexRead` | src/ha/json_read.c:55-72 | four hex digits of either case read as the code unit they name |
| `JsonStrings.PiecesRead` | src/ha/json_read.c:99-168 | every string of the grammar reads as the bytes its pieces stand for: bytes as they are, escapes, surrogate pairs and lone halves |
| `JsonStrings.OnlyPiecesRead` | src/ha/json_read.c:99-168 | and whatever reads as a string is spelled by such pieces, with no raw control byte |
| `JsonDocs.SpacesAgree` | src/ha/json_read.c:48-53 | exactly the four kinds of white space are skipped |
| `JsonDocs.ValueRead` | src/ha/json_read.c:187-330 | every document of the grammar, wherever it stands and whatever white space it has, reads as what it means and leaves what follows |
| `JsonDocs.ValueFound` | src/ha/json_read.c:187-330 | and whatever reads as a value is such a document, which fits the reader |
| `JsonDocs.DocumentRead` | src/ha/json_read.c:332-349 | a document between white space is read as what it means if and only if its groups nest at most 24 deep and its numbers are short enough and finite |
| `JsonDocs.ReadsExactlyJson` | src/ha/json_read.c:332-349 | the reader takes a text for a value if and only if the text is a document that fits and that means that value |
| `JsonTrees.CallsPrint` | web/json.c:44-218 | a tree's calls append exactly its text, with the comma that is due, and set the error flag if and only if it nests too deep |
| `JsonTrees.BalancedIsTree` | web/json.c:44-218 | the balanced sequences of calls are exactly the call sequences of trees, each of one tree |
| `JsonRoundTrip.EscapedRead` | src/ha/json_read.c:99-168 | any string written escaped reads back with only its stray bytes replaced, whatever follows |
| `JsonRoundTrip.IntRead` | src/ha/json_read.c:299-327 | any 64-bit integer written in decimal reads back as the double nearest to it |
| `JsonRoundTrip.IntComesBack` | src/ha/json_read.c:299-327 | which is the integer itself if and only if it has at most 53 bits before its trailing zeros, so always up to 2^53 |
| `JsonRoundTrip.TreeRead` | src/ha/json_read.c:187-330 | every printed tree, wherever it stands, reads back as it should and leaves the rest alone |
| `JsonRoundTrip.RoundTrip` | src/ha/json_read.c:332-349 | the text of any balanced calls that did not set the error flag parses to the tree they meant, its stray bytes replaced and its integers as doubles |
| `JsonRoundTrip.LosslessRoundTrip` | src/ha/json_read.c:332-349 | it parses to the very same tree if and only if all strings and keys are UTF-8 and all integers fit a double |
| `JsonRoundTrip.WriteAll` | web/json.c:21-218 | the same of the object: after balanced calls, unless its error flag is set, its buffer parses to the tree they meant |
| `JsonRoundTrip.GivesUpWhenTooDeep` | web/json.c:63-73 | with memory at hand, balanced calls set the error flag if and only if they nest 16 deep |
| `JsonUtf8.WriterValid` | web/json.c:21-218 | any calls at all, balanced or not, leave well-formed UTF-8 |
| `JsonUtf8.ReadStringValid` | src/ha/json_read.c:99-168 | from well-formed text a string reads well-formed, surrogates lone and paired included, and leaves well-formed text |
| `JsonUtf8.ParsedStringsValid` | src/ha/json_read.c:332-349 | from well-formed text come only well-formed keys and strings |
| `FourierAlgebra.EvalSplit` | src/audio/visualizer.c:71-88 | a polynomial's value is that of its even part and its odd part at the square, the recursion behind the butterflies |
| `FourierAlgebra.StagesEvaluate` | src/audio/visualizer.c:71-88 | the stages leave the values at the powers of the root, in any commutative ring |
| `FourierAlgebra.StagesTransform` | src/audio/visualizer.c:59-89 | bit reversal and then the stages are the discrete Fourier transform |
| `Fft.ComplexLaws` | src/audio/visualizer.c:80-87 | pairs of reals with the code's products are a commutative ring |
| `Fft.ReverseBits` | src/audio/visualizer.c:49-57 | the shifting loop reverses the bits |
| `Fft.RevTwice` | src/audio/visualizer.c:49-57 | reversing twice gives the number back, so the swaps are a permutation |
| `Fft.SwapReversed` | src/audio/visualizer.c:63-69 | the swap loop moves every element to its bit-reversed place |
| `Fft.Butterfly` | src/audio/visualizer.c:76-86 | one butterfly changes two points to the sum and difference with the turned second, and no other |
| `Fft.PairUp` | src/audio/visualizer.c:75-87 | the inner loop combines two blocks of transforms into one |
| `Fft.Stage` | src/audio/visualizer.c:71-88 | one size's pass combines every pair of blocks |
| `Fft.AllStages` | src/audio/visualizer.c:71-88 | the loop over sizes performs every stage |
| `Fft.FftForward` | src/audio/visualizer.c:59-89 | the arrays end up holding the discrete Fourier transform of what they held |
| `PngFilter.Paeth` | src/ui/cover_art.c:405-414 | the predictor without branches equals the specification's, ties included |
| `PngFilter.FilteredInjective` | src/ui/cover_art.c:441-477 | a filtered row has one original, so there is only one way to undo it |
| `PngFilter.PaethRow` | src/ui/cover_art.c:418-434 | the loop with its registers leaves the row whose Paeth filtering is what was there |
| `PngFilter.SubRow` | src/ui/cover_art.c:447-451 | the same for filter type 1 |
| `PngFilter.UpRow` | src/ui/cover_art.c:452-456 | the same for filter type 2 |
| `PngFilter.AverageRow` | src/ui/cover_art.c:457-464 | the same for filter type 3 |
| `PngFilter.UnfilterRow` | src/ui/cover_art.c:441-477 | known filter types are undone exactly, an unknown one is refused and changes nothing |
| `PngFilter.DecodeRows` | src/ui/cover_art.c:508-529 | with two buffers changing places, the rows come out if and only if every filter type is known, and are those that were filtered |
| `PngFilter.ImageUnique` | src/ui/cover_art.c:508-529 | filtered rows have one original image |
| `Binning.CropInside` | src/ui/cover_art.c:88-99 | the window chosen lies inside the source and is not empty, for all sizes, overflowing casts included |
| `Binning.CropFills` | src/ui/cover_art.c:88-99 | it spans the source's width or its height and has the output's shape, if and only if the height for the whole width fits, or is seen not to fit after its cast |
| `Binning.SmallFills` | src/ui/cover_art.c:88-92 | so whenever the source's width times the output's height fits an int |
| `Binning.CropMisses` | src/ui/cover_art.c:88-92 | sizes whose window is one row where there is room for ten |
| `Binning.BinInRange` | src/ui/cover_art.c:70-75 | every coordinate of the window has a bin |
| `Binning.BinMonotone` | src/ui/cover_art.c:70-75 | bins do not go back along the source |
| `Binning.BinReached` | src/ui/cover_art.c:70-75 | no bin is empty |
| `Binning.FirstBin` | src/ui/cover_art.c:70-75 | the first bin gets its share of the window, rounded up |
| `Binning.SameBin` | src/ui/cover_art.c:70-75 | and no bin spans more |
| `Resampler.Downsampler.MapAxis` | src/ui/cover_art.c:65-79 | each coordinate gets its bin or -1, each bin its count, and the most any bin got is returned |
| `Resampler.Downsampler.MakeAxes` | src/ui/cover_art.c:116-123 | the two axes, and the guard's product, modulo 2^64, for the fullest cell |
| `Resampler.Downsampler.Init` | src/ui/cover_art.c:81-125 | it succeeds if and only if the sizes are positive, there is memory and the product passes; then maps, counts and empty sums are set up, and are sound if and only if all sums fit |
| `Resampler.FullestBin` | src/ui/cover_art.c:65-79 | the most coordinates any bin gets is the window divided by the bins, rounded up |
| `Resampler.TakesOrWraps` | src/ui/cover_art.c:118-123 | the guard accepts just the sizes whose sums all fit 32 bits, and those whose product wraps around to a small one |
| `Resampler.NoneWraps` | src/ui/cover_art.c:118-123 | no product wraps for a source of fewer than 2^64 / 510 pixels |
| `Resampler.DecodersFit` | src/ui/cover_art.c:300 | so for no source of up to 65500 by 65500, libjpeg's limit, the guard is anything but exact |
| `Resampler.WrapsAround` | src/ui/cover_art.c:118-123 | sizes it accepts though their sums do not fit |
| `Resampler.Downsampler.SumRun` | src/ui/cover_art.c:150-157 | the sums in registers are those of the longest run in one column |
| `Resampler.Downsampler.AddSpan` | src/ui/cover_art.c:133-163 | a span of a row adds each of its pixels to its own cell and to no other |
| `Resampler.SpanCut` | src/ui/cover_art.c:133-163 | one channel of one cell gets the same from a span as from its two parts |
| `Resampler.Downsampler.AddSpans` | src/ui/cover_art.c:133-163 | however a row is cut into spans, its cells get what one span of all their pixels gives them |
| `Resampler.Downsampler.Finish` | src/ui/cover_art.c:165-178 | every output pixel is the rounded mean of the cell it shows, the one its share of the output begins in |
| `Resampler.MeanIsNearest` | src/ui/cover_art.c:172-175 | the rounded mean is within half of the true mean and between any bounds of the pixels |
| `Thumbnails.Thumbnail` | src/ui/cover_art.c:585-617 | a whole image through the downsampler, of a size whose product does not wrap: it succeeds if and only if all sums fit; each output pixel is the packed rounded mean of exactly the source pixels of the window that go into it by their place alone; and a source of the output's own size comes back pixel for pixel |
| `Thumbnails.CoversIsCell` | src/ui/cover_art.c:165-170 | a source coordinate's bin is the one an output coordinate shows if and only if, by cross-multiplication of places and sizes, it lies in that output's share or the output in its |
| `Thumbnails.RegionIsCell` | src/ui/cover_art.c:133-178 | so a cell's sums are those of exactly these pixels |
| `Thumbnails.SamePlace` | src/ui/cover_art.c:165-178 | of a source of the output's own size each output pixel is the source's at its place, packed |
| `Resampler.CellOf` | src/ui/cover_art.c:168-170 | the cell `m` of an output coordinate `y`: `m * out <= y * mid < (m + 1) * out` |
| `Resampler.Rgb565` | src/ui/cover_art.c:24-27 | red in the upper five bits, green in the next six, blue in the last five, each channel's upper bits |
| `Resampler.CellIsMean` | src/ui/cover_art.c:118-124 | a finished cell's channel lies between its pixels' least and greatest, and neither sum nor rounding outgrows 32 bits |
| `Resampler.PartialSumsFit` | src/ui/cover_art.c:118-124 | nor does any sum on the way |
| `VideoNames.LastDot` | web/videos.c:96-97 | the last dot, if there is one |
| `VideoNames.TargetOk` | web/videos.c:94-103 | what a good name becomes is a good name if and only if its stem is at most 251 bytes or the byte after the cut continues no character |
| `VideoNames.ValidCut` | web/videos.c:98-102 | well-formed text cut short is well-formed if and only if the first byte cut off continues no character |
| `VideoNames.CutCanSplit` | web/videos.c:98-102 | an upload whose target is not a good name |
| `VideoNames.FirstFree` | web/videos.c:357-363 | the name is one that is not taken |
| `VideoNames.FirstFreeIsFirst` | web/videos.c:353-364 | all names tried before it are taken, and there is none if and only if all 99 are |
| `VideoNames.CandidateIs` | web/videos.c:353-360 | the first name is the target, and the nth keeps the stem, cut to 240 bytes, and adds a space and its number in decimal |
| `VideoNames.NamesDiffer` | web/videos.c:353-364 | the 99 names of a target differ if and only if its stem is not its own first 240 bytes, a space and the number of a try |
| `VideoNames.TargetIs` | web/videos.c:94-103 | a name with an extension becomes its part before the last dot, cut to 251 bytes, with ".mp4" |
| `VideoJobs.StepInv` | web/videos.c:112-612 | every step of calls, worker, the API's deleting and renaming, clock, crash and recovery keeps the invariant of jobs and files |
| `VideoJobs.AcceptedStaysOnDisk` | web/videos.c:547-577 | over every run, an accepted job's upload and job file, saying what was asked, are on disk until its end has come |
| `VideoJobs.EndsForAReason` | web/videos.c:379-455 | an end comes only by installation, failure, a cancel, or a target that recovery refuses |
| `VideoJobs.RecoverTakesUp` | web/videos.c:167-250 | recovery makes a job, as asked, of every unfinished one and of at most one other |
| `VideoJobs.RecoveryTakesUp` | web/videos.c:167-250 | so it does after every run and crash |
| `VideoJobs.VideosKept` | web/videos.c:342-377 | only a deletion, a renaming or an installation that was to replace it takes a video away, and only a renaming to a free name or the installing of the job's own conversion brings one |
| `VideoJobs.QuietTries` | web/videos.c:353-364 | if nothing else touches the folder and no renaming fails, the tries end with the video under the first free name, or with none if all are taken |
| `VideoJobs.CancelHolds` | web/videos.c:579-599 | a cancel before the worker's look at the flag holds: that upload's video is never installed, short of a crash |
| `VideoJobs.LateCancel` | web/videos.c:425-431 | short of a crash, a cancelled conversion can come to be installed if and only if the cancel found the worker at the tries of the installing, or it was installed already |
| `VideoJobs.InstalledAllTheSame` | web/videos.c:425-431 | a reachable state from which a cancelled upload comes to be installed |
| `VideoJobs.CrashForgetsCancel` | web/videos.c:593-595 | after a crash at any moment recovery takes a listed job up again if and only if its files are there and its target passes, cancelled or not |
| `VideoJobs.CrashAfterCancel` | web/videos.c:593-595 | so the cancel of a running conversion is forgotten if and only if the worker has not removed the upload yet |
| `VideoJobs.TakenUpAgain` | web/videos.c:167-250 | a reachable state, a cancel, a crash and a recovery after which the cancelled upload waits again |
| `VideoOutcomes.ShownAsItEnded` | web/videos.c:379-456 | over every run: a job shown as done has had its video installed, one shown as failed has not |
| `VideoOutcomes.NothingLeftBehind` | web/videos.c:132-143 | over every run, while the process runs: every upload and job file is of a job waiting or at work, a conversion is of the worker's; so with no such job no file is left |
| `VideoOutcomes.TakenInOrder` | web/videos.c:474-499 | short of a crash, jobs are taken in the order in which they were queued |
| `VideoOutcomes.JobStays` | web/videos.c:458-472 | a job leaves the list only by being cleared, by its time being over or by its queueing or cancelling ending, and a finished one does not change |
| `VideoOutcomes.LookShows` | web/videos.c:458-472 | a look at the list shows exactly the live jobs, those done in the last 120 seconds and those failed in the last 1800 that nobody cancelled |
| `VideoOutcomes.ShownForItsTime` | web/videos.c:458-472 | from its end on a job is in the list through every run of that length without a clearing or a crash |
| `VideoOutcomes.ClearShows` | web/videos.c:601-612 | a clearing leaves exactly the live jobs |
| `VideoOutcomes.QueueBounded` | web/videos.c:547-560 | no job is queued beside 64 others |
| `VideoOutcomes.GoesWhen` | web/videos.c:425-431 | the worker installs only a conversion that succeeded, was written out, and whose job was not cancelled until then |
| `VideoList.Jobs.Find` | web/videos.c:582-585 | the walk finds the job of that id, if there is one |
| `VideoList.Jobs.AddJob` | web/videos.c:145-163 | a new job goes to the end with the next id |
| `VideoList.Jobs.PruneList` | web/videos.c:458-472 | unlinking in place drops exactly the jobs past their time and the cancelled ones |
| `VideoList.Jobs.TakeNext` | web/videos.c:478-490 | the worker takes the first waiting job, or there is none |
| `VideoList.Jobs.MarkCancelled` | web/videos.c:579-588 | a live job is marked, any other is not found |
| `VideoList.Jobs.ClearFinishedJobs` | web/videos.c:601-612 | exactly the live jobs are left |
| `VideoList.Jobs.TakeUp` | web/videos.c:174-214 | recovery's loop makes a waiting job of each job file, in the directory's order |
| `VideoList.Jobs.HandleCall` | web/videos.c:547-612 | every section of the calls does to the list what its step does |
| `VideoList.Jobs.HandleWork` | web/videos.c:379-495 | and every section of the worker does to the list and to how far it is |
| `VideoList.TryNames` | web/videos.c:353-364 | the names tried in turn, left alone, and the first free one taken |
| `BluetoothCalls.FirstEligible` | src/audio/bluetooth.c:1355-1367 | the first device in the list that may be asked, and none before it may |
| `BluetoothCalls.Pick` | src/audio/bluetooth.c:1355-1370 | a device that may be asked, if there is one |
| `BluetoothSafety.SendBooks` | src/audio/bluetooth.c:675-706 | sending a pairing call accounts for one pairing, sending any other changes no account |
| `BluetoothSafety.UpdateDiscoveryOk` | src/audio/bluetooth.c:751-771 | afterwards discovery runs only where it may, and the books are as they were |
| `BluetoothSafety.FinishPairOk` | src/audio/bluetooth.c:1280-1286 | a pairing finished is one less in the books, and the count never runs below the calls |
| `BluetoothSafety.ResetOk` | src/audio/bluetooth.c:264-276 | a reset makes the books right |
| `BluetoothSafety.FetchOk` | src/audio/bluetooth.c:917-922 | a new generation leaves the books right if and only if no pairing and no operation was under way |
| `BluetoothSafety.AnsweredOk` | src/audio/bluetooth.c:1298-1305 | a reply of this generation takes its call out of the books, a stale one takes nothing |
| `BluetoothSafety.OnSnapshotOk` | src/audio/bluetooth.c:878-912 | taking in a snapshot, whatever it says, makes the books right |
| `BluetoothSafety.OnPairOk` | src/audio/bluetooth.c:1376-1399 | a reply to Pair, and the Connect that may follow it, keep the books |
| `BluetoothSafety.OnConnectOk` | src/audio/bluetooth.c:1298-1329 | a reply to Connect keeps the books, whoever asked for it |
| `BluetoothSafety.StepInv` | src/audio/bluetooth.c:878-1447 | every callback and every action keeps the invariant |
| `BluetoothSafety.EveryRun` | src/audio/bluetooth.c:751-1447 | in every reachable state: active discovery is wanted, powered and not beside a pairing; with no snapshot awaited or lost the pairing count and every operation have their own calls |
| `BluetoothSafety.QuietIsIdle` | src/audio/bluetooth.c:878-1447 | with this generation's calls answered and no snapshot lost, no pairing is counted and every device is idle |
| `BluetoothSafety.LostSnapshot` | src/audio/bluetooth.c:917-922 | a run from the start after which no call is out, one pairing is counted, and the wanted search does not run |
| `BluetoothSafety.StaleReply` | src/audio/bluetooth.c:1301-1305 | a stale reply changes nothing but that it is no longer awaited |
| `BluetoothSafety.ReconnectsSpendTurns` | src/audio/bluetooth.c:1345-1374 | no reconnect is asked for beside a pairing, and each asking spends a turn, so a round of failures ends |
| `BluetoothEffects.StepSettled` | src/audio/bluetooth.c:751-771 | if no start fails, discovery runs after each event if and only if it is wanted, there is a powered adapter and no pairing is counted |
| `BluetoothEffects.SearchesWhereWanted` | src/audio/bluetooth.c:735-771 | so over every run in which no start fails |
| `BluetoothEffects.StartedOnce` | src/audio/bluetooth.c:751-765 | every event sends at most one StartDiscovery, none where discovery is not active afterwards, and exactly one of the current generation where it has become active |
| `BluetoothEffects.PairTapSends` | src/audio/bluetooth.c:1407-1420 | a tap sends its Pair, with discovery stopped, the pairing counted and the device marked, or leaves count and devices as they were |
| `BluetoothEffects.ConnectTapSends` | src/audio/bluetooth.c:1422-1427 | a tap on an idle device sends its Connect and marks it, or does nothing |
| `BluetoothEffects.DisconnectTapSends` | src/audio/bluetooth.c:1440-1447 | the same of Disconnect |
| `BluetoothEffects.PairReplySends` | src/audio/bluetooth.c:1376-1399 | a Pair that succeeded sends the Connect that finishes it; one that failed ends the pairing, and with the last one the search resumes |
| `BluetoothEffects.PairingEnds` | src/audio/bluetooth.c:1298-1329 | the Connect that finishes a pairing ends it, whatever came of it, and with the last one the search resumes |
| `BluetoothEffects.ReplySettles` | src/audio/bluetooth.c:1298-1438 | what else was asked for is over with its reply, and its device idle |
| `BluetoothSnapshot.SnapshotShows` | src/audio/bluetooth.c:878-912 | a snapshot leaves the first adapter with its last power, exactly the devices named under it, each property as last told, a round of reconnects if there is power, and no pairing |
| `BluetoothSnapshot.AdapterTaken` | src/audio/bluetooth.c:600-638 | the first adapter wins, and its power is the last that was told of it |
| `BluetoothSnapshot.DevicesTaken` | src/audio/bluetooth.c:600-638 | a path holds a device if and only if it is named under the adapter and short enough, and all that was told of it in order |
| `BluetoothSnapshot.DeviceTold` | src/audio/bluetooth.c:995-1000 | a device told of anew takes the properties told and keeps the rest; no other is touched |
| `BluetoothSnapshot.RoundAsks` | src/audio/bluetooth.c:1345-1374 | a reconnect step asks the first device in turn that speaks AAP, else the first in turn, marks it and spends its turn alone |
| `BluetoothSnapshot.RoundRests` | src/audio/bluetooth.c:1345-1374 | and does nothing without a powered adapter, beside a pairing, with a listening device connected or with none in turn |
| `BluetoothSnapshot.RoundGoesOn` | src/audio/bluetooth.c:1312-1322 | a failed reconnect makes the next step with its device idle |
| `BluetoothSnapshot.PowerStartsRound` | src/audio/bluetooth.c:385-393 | power coming on makes a round due and gives every device its turn back |
| `BluetoothSnapshot.PowerFollows` | src/audio/bluetooth.c:378-393 | the power is what was told last, and off ends discovery |
| `BluetoothSnapshot.UnderIs` | src/audio/bluetooth.c:255-259 | under an adapter are the paths that begin with its own and a slash |
| `BluetoothSnapshot.DeviceGoes` | src/audio/bluetooth.c:957-972 | interfaces that go take their device with them and nothing else |
| `BluetoothSnapshot.AdapterGoes` | src/audio/bluetooth.c:972-978 | when the adapter goes nothing is known any more, and a snapshot is asked for |
| `BluetoothSnapshot.OwnerTells` | src/audio/bluetooth.c:926-942 | when bluetoothd goes nothing is known; when it comes a snapshot is asked for and what is shown stays until then |
| `BluetoothSnapshot.OpenTells` | src/audio/bluetooth.c:1012-1074 | an opened bus asks for a snapshot, or is closed again |
| `BluetoothSnapshot.LossTells` | src/audio/bluetooth.c:1012-1023 | a lost bus leaves nothing and no reply to wait for |
| `BluetoothSnapshot.ScanTells` | src/audio/bluetooth.c:1253-1264 | the search is wanted from start to stop |
| `Bluetooth.Mirror.FindDev` | src/audio/bluetooth.c:169-177 | the first device of that path |
| `Bluetooth.Mirror.RemoveDev` | src/audio/bluetooth.c:203-213 | the device of that path is out, the others in their order |
| `Bluetooth.Mirror.ResetMirror` | src/audio/bluetooth.c:264-276 | the whole state after a reset |
| `Bluetooth.Mirror.ScheduleAutoconnect` | src/audio/bluetooth.c:310-317 | every device gets its turn again |
| `Bluetooth.Mirror.AdapterProp` | src/audio/bluetooth.c:378-393 | power off ends discovery, power on schedules a reconnect round |
| `Bluetooth.Mirror.ParseIface` | src/audio/bluetooth.c:611-629 | the first adapter wins, and only devices under it are taken |
| `Bluetooth.Mirror.ParseObjects` | src/audio/bluetooth.c:640-658 | all objects in turn |
| `Bluetooth.Mirror.UpdateDiscovery` | src/audio/bluetooth.c:751-771 | discovery started or stopped as wanted; `BluetoothEffects.SearchesWhereWanted` says that it does start |
| `Bluetooth.Mirror.SetOp` | src/audio/bluetooth.c:1266-1278 | the op of that device and no other |
| `Bluetooth.Mirror.FinishPair` | src/audio/bluetooth.c:1280-1286 | one pairing less, and discovery as wanted |
| `Bluetooth.Mirror.FetchObjects` | src/audio/bluetooth.c:917-922 | a new generation and its request |
| `Bluetooth.Mirror.PickNext` | src/audio/bluetooth.c:1355-1367 | two passes pick the first eligible device with AAP, else the first |
| `Bluetooth.Mirror.AutoconnectNext` | src/audio/bluetooth.c:1345-1374 | one step of a reconnect round |
| `Bluetooth.Mirror.OnObjects` | src/audio/bluetooth.c:878-912 | the mirror rebuilt from the snapshot |
| `Bluetooth.Mirror.OnPair` | src/audio/bluetooth.c:1376-1399 | the reply to Pair |
| `Bluetooth.Mirror.OnConnect` | src/audio/bluetooth.c:1298-1329 | the reply to Connect |
| `Bluetooth.Mirror.OnReply` | src/audio/bluetooth.c:1298-1438 | a reply frees its call and acts only in its own generation |
| `Bluetooth.Mirror.OnInterfacesRemoved` | src/audio/bluetooth.c:957-980 | devices dropped, and a lost adapter resets and fetches |
| `Bluetooth.Mirror.CloseBus` | src/audio/bluetooth.c:1012-1023 | every call freed unanswered and the mirror reset |
| `Bluetooth.Mirror.PairDevice` | src/audio/bluetooth.c:1407-1420 | a tap on an idle device counts a pairing before it pauses discovery and sends |
| `Bluetooth.Mirror.Handle` | src/audio/bluetooth.c:878-1447 | every event of the class is a step of the relation and keeps its invariant |
| `HomeAssistant.StepInv` | src/ha/ha.c:396-997 | every section keeps the invariant |
| `HomeAssistant.NothingStale` | src/ha/ha.c:860-903 | under every interleaving the entities, status and server name on show came from the address and token now configured, and an expected state is that of an action on the entity, queued for that server |
| `HomeAssistant.ActionsGoWhereMeant` | src/ha/ha.c:631-642 | every action went to the server configured when it was queued; of those queued since the last change the first were sent, last of all and in that order, and the others wait |
| `HomeAssistant.LateReply` | src/ha/ha.c:837-955 | a reply of another generation changes nothing shown |
| `HomeAssistant.VersionTells` | src/ha/ha.c:396-420 | whatever shown changes, the version goes up |
| `HomeAssistantScreen.ListIsShown` | src/ha/ha.c:878-902 | a list in its own generation is shown as it is: each entity in its place with the reported value of the configured server, and the status Ok |
| `HomeAssistantScreen.ShowsWhatItWasTold` | src/ha/ha.c:396-955 | over every run: what is shown is the last list taken, with the patches and confirmations since on the first entity of their id |
| `HomeAssistantScreen.TroubleIsShown` | src/ha/ha.c:860-884 | a list that fails or cannot be read leaves what is shown, with the trouble as the status |
| `HomeAssistantScreen.NameIsShown` | src/ha/ha.c:837-858 | the server's name is shown when it comes |
| `HomeAssistantScreen.RefusalIsShown` | src/ha/ha.c:920-930 | a failed action is told and a list asked for |
| `HomeAssistantScreen.SettingIsTaken` | src/ha/ha.c:422-470 | a setting that is saved is taken, and no other |
| `HomeAssistantScreen.ChangeStartsAnew` | src/ha/ha.c:396-411 | another server starts with nothing shown or waiting, and a list asked for if address and token are there |
| `HomeAssistantScreen.FlagsAreKept` | src/ha/ha.c:526-540 | a refresh is asked for if there is a server to ask |
| `HomeAssistantScreen.ConnectingIsUnderWay` | src/ha/ha.c:396-411 | over every run: while it says "connecting" a list is asked for or on its way |
| `HomeAssistantScreen.ActionIsQueued` | src/ha/ha.c:631-642 | an action is queued behind the others while fewer than 16 wait, and otherwise nothing happens |
| `HomeAssistantScreen.WorkIsTaken` | src/ha/ha.c:966-985 | the worker takes the first action there is, and else a refresh |
| `HomeAssistantClient.Client.ConfigChanged` | src/ha/ha.c:396-411 | the whole state after a change of server |
| `HomeAssistantClient.Client.StoreConfig` | src/ha/ha.c:422-445 | a setting that cannot be saved is put back; one that differs starts anew |
| `HomeAssistantClient.Client.SetUrl` | src/ha/ha.c:422-445 | forgetting the address forgets the token |
| `HomeAssistantClient.Client.SetToken` | src/ha/ha.c:447-470 | the token alone |
| `HomeAssistantClient.Client.EnqueueJob` | src/ha/ha.c:631-642 | queued if configured and there is room |
| `HomeAssistantClient.Client.PatchEntity` | src/ha/ha.c:609-629 | the first entity of that id, and no other |
| `HomeAssistantClient.Client.Activate` | src/ha/ha.c:644-661 | an action is queued and then shown, or neither |
| `HomeAssistantClient.Client.TakeWork` | src/ha/ha.c:966-985 | an action before a refresh, with the server as it is now |
| `HomeAssistantClient.Client.TakeList` | src/ha/ha.c:878-902 | a list taken in only in its own generation; `HomeAssistantScreen.ListIsShown` says that it is then what is shown |
| `HomeAssistantClient.Client.TakeInfo` | src/ha/ha.c:837-858 | the server's name, only in its own generation |
| `HomeAssistantClient.Client.ActionFailed` | src/ha/ha.c:920-930 | a failure told, and a refresh to undo what was expected |
| `HomeAssistantClient.Client.TakeConfirmation` | src/ha/ha.c:935-953 | the reported state, on the entity it is of |
| `ListenQueue.FileIsNewest` | src/audio/listenbrainz.c:272-344 | whatever happens, the file is the newest part of what was appended, in order and within its cap |
| `ListenQueue.NoneIsLost` | src/audio/listenbrainz.c:305-344 | below the cap each listen is in the file until accepted, and they are accepted oldest first, crashes included |
| `ListenQueue.WriteTakesOff` | src/audio/listenbrainz.c:336-341 | a write that succeeds leaves the file without its first lines, as many as were posted or as there are |
| `ListenQueue.CompleteFlush` | src/audio/listenbrainz.c:305-344 | after a complete flush below the cap the file holds only what was appended since its read |
| `ListenQueue.NoneTwice` | src/audio/listenbrainz.c:305-344 | over every run below the cap without a crash or a failed write, no listen is posted twice |
| `ListenQueue.RemovesWhatItPosted` | src/audio/listenbrainz.c:336-341 | on the file before and after the flush's write: it takes out exactly the listens posted if and only if nothing was posted or nothing was pushed out meanwhile |
| `ListenQueue.PushedOutTwice` | src/audio/listenbrainz.c:291-292 | otherwise it takes out exactly so many listens that were not posted as were pushed out, or as were posted if that is less |
| `ListenQueue.LostUnposted` | src/audio/listenbrainz.c:291-341 | a reachable state in which a listen is gone that was neither posted nor pushed out |
| `ListenQueue.ReadsBack` | src/audio/listenbrainz.c:214-267 | lines written are the lines read back |
| `Listens.Ring.Enqueue` | src/audio/listenbrainz.c:387-400 | the newest at the end, or dropped when full |
| `Listens.Ring.Dequeue` | src/audio/listenbrainz.c:362-365 | the oldest from the front |
| `Listens.Queue.AppendCapped` | src/audio/listenbrainz.c:272-296 | a line added and the oldest dropped past the cap |
| `Listens.Queue.FlushRead` | src/audio/listenbrainz.c:311-317 | the flush's snapshot |
| `Listens.Queue.FlushPost` | src/audio/listenbrainz.c:324-329 | one post, which ends the flush if it fails |
| `Listens.Queue.FlushWrite` | src/audio/listenbrainz.c:336-342 | as many lines off the front as were posted |
| `WheelFraming.PacketPasses` | daemon/rpod-wheel.c:311-342 | from its first bit on a packet is recorded to its last, and its ones are never taken for a break |
| `WheelFraming.StreamPasses` | daemon/rpod-wheel.c:311-342 | between packets, a stream of packets gives exactly those, once each and in order |
| `WheelFraming.OnesSettle` | daemon/rpod-wheel.c:313-319 | after 32 one-bits the decoder is between packets, whatever it was at |
| `WheelFraming.SynchronisedByOnes` | daemon/rpod-wheel.c:304-342 | from any state, 32 one-bits and a stream: exactly its packets follow |
| `WheelFraming.SynchronisedByPause` | daemon/rpod-wheel.c:357-362 | from any state, a stream whose first edge comes late: exactly its packets |
| `WheelFraming.CutShort` | daemon/rpod-wheel.c:358-360 | a packet cut short by a pause is lost and nothing else is |
| `WheelEvents.Delta` | daemon/rpod-wheel.c:196-205 | the difference up to whole turns, at most half a turn either way |
| `WheelEvents.EncodedDecodes` | daemon/rpod-wheel.c:263-280 | the packet of any state, with the preamble, five buttons, touch and position at their bits, is taken and decodes to that state |
| `WheelEvents.DecodedEncodes` | daemon/rpod-wheel.c:263-280 | and whatever is taken is the packet of the state it decodes to |
| `WheelEvents.ClientsKnow` | daemon/rpod-wheel.c:235-292 | through any packets, every event is news to a client that saw all before, and what it pictures is the daemon's state; turns add up to the way round |
| `WheelEvents.HoldIsQuiet` | daemon/rpod-wheel.c:281-288 | under hold nothing is pressed, touched or turned, and an idle wheel says nothing |
| `WheelEvents.RepeatIsQuiet` | daemon/rpod-wheel.c:235-261 | a packet like the last says nothing |
| `WheelDaemon.PacketsAreWords` | daemon/rpod-wheel.c:311-342 | the packets handed on are the framing's words |
| `WheelDaemon.HandsOnTheStream` | daemon/rpod-wheel.c:344-366 | so after 32 one-bits they are those of the stream |
| `WheelDaemon.WaveRead` | daemon/rpod-wheel.c:344-366 | however long the clock stays low and high, each rise gives the data line's bit, and is late if it comes more than 150 microseconds after the one before |
| `WheelDaemon.StateLearnt` | daemon/rpod-wheel.c:263-292 | whatever went before: once the packet of a state is handed on, with the hold switch off, that is the state told |
| `WheelDaemon.Decoder.ApplyState` | daemon/rpod-wheel.c:235-261 | the differences are sent in their order and the state adopted |
| `WheelDaemon.Decoder.HandlePacket` | daemon/rpod-wheel.c:263-292 | a corrupt packet changes nothing, one under hold is an idle wheel |
| `WheelDaemon.Decoder.OnBit` | daemon/rpod-wheel.c:311-342 | one bit's framing, and the packet it completes handled |
| `WheelDaemon.Decoder.SamplesCb` | daemon/rpod-wheel.c:344-366 | a batch of samples is its rising edges, and what it sends and leaves is that of their packets |
| `Scroll.PushedInTime` | src/input/wheel_input.c:81-97 | as long as time does not go back, one more event leaves the window's entries in order and within 150 ms of the newest |
| `Scroll.WindowInTime` | src/input/wheel_input.c:81-97 | so they are after every run of turns and resets whose times do not go back |
| `Scroll.Gain` | src/input/wheel_input.c:113-117 | between one and the maximum, and one up to V0 |
| `Scroll.FullGain` | src/input/wheel_input.c:113-117 | the maximum from V1 on |
| `Scroll.GainRises` | src/input/wheel_input.c:113-117 | a faster turn never gains less |
| `Scroll.GainBetween` | src/input/wheel_input.c:113-117 | between V0 and V1 the excess over one is the square of the way there, times the maximum's |
| `Scroll.RateIs` | src/input/wheel_input.c:105-112 | the speed times the time is the positions, the time counting as no less than 20 ms |
| `Scroll.FeedBalanced` | src/input/wheel_input.c:70-123 | steps never go against the turn, and the remainder is less than a step |
| `Scroll.Account` | src/input/wheel_input.c:119-122 | as long as nothing restarts it, what is turned and the remainder before come to the steps given and the remainder after |
| `Scroll.NoneLost` | src/input/wheel_input.c:59-123 | over every run: since its last reset or reversal, the positions turned with their gain are the steps given times the step size and a remainder below one step |
| `Scroll.Accel.Push` | src/input/wheel_input.c:83-97 | the ring drops what fell out of the window, makes room and takes the event; its running sum is that of its entries |
| `Scroll.Accel.SpeedNow` | src/input/wheel_input.c:105-112 | the speed over the time the window covers |
| `Scroll.Accel.FeedTurn` | src/input/wheel_input.c:70-123 | a reversal starts from rest, and the steps and the remainder are those of the turn |
| `Scroll.InPieces` | src/input/wheel_input.c:308-319 | a stream's events do not depend on where it is cut |
| `Scroll.Receiver.Receive` | src/input/wheel_input.c:295-320 | however the bytes come, the events handled are those of the whole stream so far |
| `GestureRules.StepInv` | src/input/gestures.c:27-192 | every call keeps the invariant |
| `GestureRules.EveryRun` | src/input/gestures.c:27-192 | asleep every button down is swallowed, a swallowed one is down, scans begun less ended are the buttons scanning, and a Play/Pause press comes to at most one thing |
| `GestureRules.WakingPress` | src/input/gestures.c:39-48 | the press that wakes does nothing else, nor does its release, but for the buttons that act from a dim sleep |
| `GestureRules.SwallowedIsQuiet` | src/input/gestures.c:97-101 | a swallowed button comes to no hold |
| `GestureRules.Tap` | src/input/gestures.c:27-118 | a press and release with nothing due between is a tap: the centre's level up and down, the menu at its press, Play/Pause, Prev and Next at their release |
| `GestureRules.HoldSeeks` | src/input/gestures.c:95-118 | held until its time, Next seeks forwards and Prev backwards, once, until let go, and does not skip |
| `GestureRules.HoldOpensDevices` | src/input/gestures.c:102-108 | Play/Pause held until the device list takes it opens that, and neither plays nor sleeps |
| `GestureRules.HoldSleeps` | src/input/gestures.c:102-112 | if the list does not take it, it plays when let go before the sleep is due, and sleeps when held until then |
| `GestureRules.SleepAndWake` | src/input/gestures.c:152-192 | what sleeping, a turn, a waking and a cancel leave: a turn wakes from a dim sleep alone |
| `Gestures.Machine.Feed` | src/input/gestures.c:27-93 | a press or a release, repeats ignored |
| `Gestures.Machine.Tick` | src/input/gestures.c:95-118 | the holds that are due, in the buttons' order |
| `Gestures.Machine.Timing` | src/input/gestures.c:120-130 | true if and only if a button that has a hold could still come to it |
| `Gestures.Machine.LetAllGo` | src/input/gestures.c:133-150 | every button down is let go of, and whether the centre was among them |
| `Gestures.Machine.GoToSleep` | src/input/gestures.c:152-157 | asleep, with nothing counting |
| `Gestures.Machine.Turn` | src/input/gestures.c:159-170 | a turn moves things if and only if awake, and wakes from a dim sleep |
| `Gestures.Machine.WakeUp` | src/input/gestures.c:172-181 | wakes without a press, and whether it was asleep |
| `Gestures.Machine.Cancel` | src/input/gestures.c:183-192 | every button forgotten without acting |
| `AlphaSort.First` | src/ui/alpha_sort.c:23-49 | the code point at the front never runs past the name's end |
| `AlphaSort.NextCp` | src/ui/alpha_sort.c:23-49 | the loop reads that code point and moves past it |
| `AlphaSort.FindSignificant` | src/ui/alpha_sort.c:77-99 | the place where sorting starts, articles and punctuation skipped again and again |
| `AlphaSort.Letter` | src/ui/alpha_sort.c:109-113 | the letter a name files under |
| `AlphaSort.Compare` | src/ui/alpha_sort.c:115-139 | the comparison is the order by letter, then by what counts, then by bytes |
| `AlphaSort.OrderOpposite` | src/ui/alpha_sort.c:115-139 | the other way round it is the opposite |
| `AlphaSort.OrderZero` | src/ui/alpha_sort.c:115-139 | it is zero if and only if the names are the same |
| `AlphaSort.OrderTransitive` | src/ui/alpha_sort.c:115-139 | it is transitive |
| `AlphaSort.LettersTogether` | src/ui/alpha_sort.c:102-107 | in a sorted list every letter's entries sit together, the rest after Z |
| `AlphaSort.Jump` | src/ui/alpha_sort.c:141-175 | the jump lands on the first entry of the next letter, or stays; of the letter before, or at the top |
| `AlphaSort.ArticleSkipped` | src/ui/alpha_sort.c:88-97 | a leading article counts for nothing when a word follows |
| `AlphaSort.ArticleAlone` | src/ui/alpha_sort.c:88-97 | an article with nothing after it counts |
| `AlphaSort.PunctuationSkipped` | src/ui/alpha_sort.c:77-87 | leading punctuation counts for nothing |
| `AlphaSort.SignificantAgain` | src/ui/alpha_sort.c:77-99 | starting from where sorting starts finds the same place |
| `AlphaSort.CaseFolds` | src/ui/alpha_sort.c:52-68 | small letters file where capitals do, and order alike unless the bytes must decide |
| `AlphaSort.EncodedRead` | src/ui/alpha_sort.c:23-49 | a well-formed character is read as the code point it encodes, whole |
| `AlphaSort.FilesUnderCapital` | src/ui/alpha_sort.c:52-113 | a name files under the capital of the ASCII letter its sorting starts with, and one that starts with a digit under none |
| `AlphaSort.StartsAtOnce` | src/ui/alpha_sort.c:77-99 | sorting starts right away with a letter or digit that begins the name, unless an article does |
| `AlphaSort.LettersInOrder` | src/ui/alpha_sort.c:115-139 | A to Z rise in the order whatever the rest of the names, and what files under no letter comes last |
| `AlphaSort.AccentsFold` | src/ui/alpha_sort.c:9-11 | the letters of U+00C0 to U+00FF fold as the table's text has them |
| `AlphaSort.ExtendedFold` | src/ui/alpha_sort.c:12-14 | and those of U+0100 to U+017F |
| `Quiz.NeverZero` | src/games/quiz.c:18-26 | the generator never comes to zero |
| `Quiz.PickAnswer` | src/games/quiz.c:55-77 | an answer long enough, not used before if one such exists; none only if no song is long enough |
| `Quiz.PickOthers` | src/games/quiz.c:103-119 | five songs of different titles, or the library has not five |
| `Quiz.Arrange` | src/games/quiz.c:121-126 | the answer at its place and the others around it, none lost |
| `Quiz.StartOf` | src/games/quiz.c:128-132 | a start from a fifth to three fifths of the song, or the latest that leaves a whole round and the tail, and never later |
| `Quiz.Pick` | src/games/quiz.c:93-134 | whatever the random numbers, a round if and only if a song is long enough and five titles differ; and then a right one |
| `Gauge.LevelForMv` | src/power/gauge.c:62-76 | the loop finds the curve's level |
| `Gauge.CurveRises` | src/power/gauge.c:62-76 | the curve rises from 0 to 100 |
| `Gauge.CurveIs` | src/power/gauge.c:62-76 | the curve runs through its points and between two of them on the straight line, rounded to the nearest |
| `Gauge.CurveEnds` | src/power/gauge.c:62-76 | full from the first point up, empty below the last |
| `Gauge.Averaged` | src/power/gauge.c:92-96 | the average moves towards the reading and not past it |
| `Gauge.AveragedIs` | src/power/gauge.c:92-96 | by the share that the time has of it and the 30-second time constant |
| `Gauge.AverageWithin` | src/power/gauge.c:92-96 | over every run it stays within the readings |
| `Gauge.RisesWhy` | src/power/gauge.c:103-118 | on USB power the level rises a point at a time and not past the curve, on battery only to a curve at least five points above |
| `Gauge.OnBattery` | src/power/gauge.c:116-118 | on battery the level is never above the curve and less than five points below: it falls with the curve at once, and stays where that holds |
| `Gauge.OnUsb` | src/power/gauge.c:103-115 | on USB power it rises a point for every 45 seconds the curve is above it, keeps the time left over, and falls only to a curve five points below |
| `Gauge.ChargesOn` | src/power/gauge.c:102-115 | over every USB run behind the curve, points gained times 45 seconds and the time left are exactly the time that passed |
| `Gauge.RiseBounded` | src/power/gauge.c:102-115 | points gained and rising time left never exceed the time that passed |
| `Gauge.PluggedIn` | src/power/gauge.c:102-115 | a stretch of time T on USB power, from battery or from the first reading on, raises the level by at most T / 45000 points |
| `Gauge.CriticalWhen` | src/power/gauge.c:120-128 | over every run: critical if and only if the last stretch of readings on battery and at a critical level took 20 seconds |
| `Gauge.Meter.FeedReading` | src/power/gauge.c:83-132 | the gauge's whole state after a reading, and whether what is shown changed |

## Left out

- User interface: LVGL screens, fonts, icons, drawing, the visualizer's bars and Brick's physics.
- Foreign calls (libmpdclient, libcurl, sd-bus, pigpio, FFmpeg, libjpeg, zlib): each is an input, a reply or a success flag here, and a D-Bus message is what its parser got out of it.
- The JSON writer's doubles ("%.10g"): rounding and its text. `strtod` is taken to read what the grammar's numbers are, leading zeros and a bare point after the digits among them, to round to the nearest double, ties to even, and minus zero is zero.
- The JSON reader's own out-of-memory failures, and a NUL inside a string that a caller then reads as its end.
- FftForward: exact arithmetic; the twiddle table comes as an input with the laws of a root of unity, and the size is any power of two where the source has 1024. Windowing, bands and frame reassembly are not modelled.
- PNG headers, palettes and bit depths below a byte, zlib's stream, and JPEG: the rows' bytes are inputs.
- The downsampler's accumulators are a table of cells here, one flat array in the source; address arithmetic and `size_t` overflow of allocations are not modelled.
- Video jobs: pipe and fork succeed, writing and renaming a file are atomic, and there is no power loss, no failed allocation in recovery and no fsync. Progress, pids, posters and messages are not modelled, source names are fresh numbers, and the read of a job after the unlock at web/videos.c:450-454 is not.
- Video jobs are a step relation with a map by id; in VideoList the list runs each section in place. The files' making and removal are part of the relation only, and nothing but the worker and the API's deleting and renaming changes the videos.
- Thumbnail: does not say what comes of sizes whose product wraps around, because the counts' own product can then be 0 modulo 2^32 and is divided by; no source of the decoders has such a size.
- Bluetooth: transports and headset volume, the agent's answers, calls whose replies are only logged (the filter, StopDiscovery, Trusted), the power switch, forgetting a device, error texts, names, addresses and watchers are not modelled; whether a device is audio is an input, a device's addition never lacks memory, and the reconnect delay is an event that may come while a round is due.
- Home Assistant: URL and token checks, JSON to entities, request bodies, error texts and optimistic brightness or temperature are not modelled (an expected state is one value); one thread makes all calls, as src/ui/control.h says, so between an action's queueing and its showing only the worker's sections come; the generation and the version do not wrap around.
- ListenBrainz: token handling, payload text, and start and stop of the thread. A file is written whole or not at all, so a crash in the middle of a write is not modelled.
- The wheel's clients, sockets, haptics and timestamps; the hold switch's level is an input with each packet.
- Scroll: exact arithmetic in place of floats; the letter scrub and fine mode are not modelled.
- Gestures: actions the app left out (NULL) are told like the others; of what an action may call back, only that sleeping puts the input to sleep is modelled. The encoder is not.
- Alphabetical order: the folding table of accented letters is the source's, entry for entry; `strcmp` is taken to compare bytes as unsigned numbers.
- Quiz: libraries of fewer than 2^32 songs; the points are not modelled.
- Gauge: registers to millivolts is not modelled, averages are exact, and times do not wrap around.
- AirPods, volume memory, sinks, the HTTP helpers and the encoder would add easier members of the kinds above.
