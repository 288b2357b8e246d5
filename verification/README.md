# EasyICE stream analysis: a verified model

EasyICE analyses MPEG transport streams, H.264 video and HLS playlists. This project models its
stateful cores in Dafny and proves what each is for. `dafny verify dfyconfig.toml` checks the whole
project. Every class, field and method keeps the name it has in the C++ source where there is one.

**H.264 parameter sets** (`Bits`, `Bitstream`, `ScalingList`, `Hrd`, `Vui`, `Sps`, `InterpretSps`,
`ModifySps`, `Ebsp`, `KnownCodes`, `KnownLists`, `KnownHigh`, `KnownFull`, `KnownPlain`). The reference is
an encoder that the source does not contain: a value of the datatype `SpsSyntax.Sps` is written, element
by element in the order of sections 7.3.2.1.1, 7.3.2.1.1.1, E.1.1 and E.1.2 of ITU-T H.264, as a script
of u(n), ue(v) and se(v) elements, and a script has a bit string. The readers of `common/jmdec.cpp` are
methods on a byte buffer with a moving bit position. The theorem of `SpsReader.InterpretSPS` is a round
trip over all well-formed parameter sets, at any bit offset, with anything behind them. `SpsPatch`
proves that the patcher changes one flag of what a later parse returns, including the bit writer of
`common/zbitop.h` and its conversion of the skip to `short`. `KnownHigh`, `KnownFull` and `KnownPlain`
tie the scripts to literal bytes: five parameter sets whose fields differ are given field by field and
byte by byte, which fixes the order, the widths and the conditions of the syntax, and `InterpretSPS` is
applied to the bytes. `EmulationPrevention` proves the in-place removal of escape bytes against an
escaping function, in both directions.

**Ring buffer** (`CircularBuffer`, `RingInterleaving`). The class refines a FIFO; then every call is
cut into single accesses to shared memory, down to the bytes of `memcpy`, and the same guarantees are
proved for every interleaving of one writer and one reader, together with the life time of the pointer
`ReadItem` hands out. The items accepted are read off the calls alone: those made while there was room.

**Asynchronous saver** (`AsyncSaver`). Producers, worker and stopper as a transition system over the
deque and the auto-reset event: the URLs and data saved are those handed in, in their order, the life time
of their buffers, no lost wake-up, and bounds on how long a save and a stop can take.

**HLS playlists** (`ReadLine`, `CStrings`, `UriPath`, `RelativeUri`, `Rfc3986`, `UriAgreement`,
`Attributes`, `KeyIv`, `TagSniffer`, `SegmentInfo`, `Playlist`, `PlaylistLines`). The line splitter
inverts joining; `ParseStream` is proved against a declarative reading of the lines (which `#EXTINF`,
key and version line is in force at which URI line, and where parsing stops), and `PlaylistLines` says
what each kind of line does by its text, up to whole playlists. Relative URLs are compared with RFC
3986: `Rfc3986` has its parsing, transformation and removal of dot segments rule by rule, and
`UriAgreement` says for all references when the code does the same.

**Tables and buffers** (`PidTable`, `DlBuffer`). A sentinel-terminated table that equals a histogram of
all packets, and a growing buffer with an exact acceptance bound.

## Conventions

- C `int` and `unsigned int` are integers with explicit wrap-around (`Bits.ToInt32`, `Bits.ToUint32`);
  bytes are `bv8`. Where a field of the source is an unsigned field of the parameter set, it is a `nat`
  that the conversion keeps below 2^32.
- A C string is the sequence of its characters without the NUL behind them; a null pointer is `None`.
  Pointers into a buffer are positions in it.
- Ghost parameters of the parameter-set readers (`v`, `c`, `rest`) name the value that was written and
  what follows it; the code does not look at them.
- `strtol`, `strtof` and the `%d` of `sscanf` are parameters (`SegmentInfo.Scanners`): the playlist
  theorems hold for every way numbers are read.

## Where the code falls short of its promise

Each of these is a theorem with the exact condition, and where it helps a concrete input.

- Section 7.4.1 of ITU-T H.264 asks for a final byte 3 after every payload that ends in a zero byte.
  `EBSPtoRBSP` removes it only after an even number of zero bytes (`StripToTheLetter`).
- `ModifySPS` passes its skip as a `short`: the macro sets the right bit exactly when 1 to 2^15 bits come
  before it (`PatchRightIff`, `PatchFails`). At the start of a buffer every parameter set is in reach
  (`FlagInReach`).
- `relative_URI` agrees with RFC 3986 exactly in the cases of `UriAgreement.Agrees` (`AgreesIff`): it keeps
  dot segments, counts slashes in the query of the base, climbs over the root (`ClimbsOverRoot`), doubles
  the slash of absolute paths (`AbsoluteDoublesSlash`) and appends URLs of other schemes to the base.
- `parse_Attributes` also finds a name inside another name or a value (`FoundIff`, `FoundInsideName`) and
  cuts a quoted value at its first comma (`FoundIsValue`, `CutInsideQuotes`).
- A key line with `METHOD=NONE` does not end the use of the previous key, nor does the start of another
  playlist (`KeyIsInForceIff`, `KeyStaysAfterNone`).
- A key line whose relative URI cannot be resolved assigns a null pointer to a string, and an absolute path
  with a URL of less than eight characters is looked up behind the URL; the model calls the outcome
  `Undefined`, and `UndefinedIff` says exactly which key lines have it.
- `string_to_IV` refuses every IV of up to 16 digits, accepts any longer text, and yields the number
  exactly when it fits in 128 bits (`HoldsIv`).
- The 1000th distinct PID overwrites the sentinel of the PID table (`CalcPidList`).
- A playlist that starts with a line break is parsed as an empty one (`ParsedInFullIff`).

## Model

| member | source | states |
|---|---|---|
| Bits.ValueConcat | common/jmdec.cpp:206-238 | the number a bit string denotes is that of its front shifted by the length of its back, plus that of its back |
| Bits.UBitsOfValue | common/jmdec.cpp:113-127 | every bit string is the u(n) code of the number it denotes, so the fixed-length code is a bijection |
| Bits.SignedBijection | common/jmdec.cpp:178-185 | the mapping of section 9.1.1 between code numbers and signed values and its inverse undo each other both ways |
| Bits.UeBitsShape | common/jmdec.cpp:302-342 | the ue(v) code of v is 2*floor(log2(v+1))+1 bits long, its zeros end at the leading one and the rest denotes v+1 |
| Bits.UeDecodes | common/jmdec.cpp:302-342 | where the ue(v) code of v stands, there is a whole codeword whose value is v and whose length is that of the code |
| Bits.UeEncodes | common/jmdec.cpp:302-342 | conversely every codeword of up to 31 leading zeros is the ue(v) code of its value |
| Bits.CodewordIffCode | common/jmdec.cpp:302-342 | both directions together: a codeword with value v stands at a place exactly when the code of v does |
| Bits.BytesHold | common/jmdec.cpp:215-228 | every bit string, packed into bytes with the first bit highest, is what a reader finds at the start of them |
| BitReader.GetBits | common/jmdec.cpp:206-238 | refuses a read beyond the bound, else returns the number denoted by those bits of the buffer as an int |
| BitReader.ShowBits | common/jmdec.cpp:257-283 | the same number as GetBits and the same refusals, without an out-parameter |
| BitReader.BitReadsCompose | common/jmdec.cpp:206-283 | reading a+c bits is reading a bits, then c bits, shifted and added, across any byte boundary and also after the wrap to 32 bits |
| BitReader.GetVLCSymbol | common/jmdec.cpp:302-342 | returns the length and the information bits of the codeword at the position, or -1 by the byte-wise length test |
| BitReader.FindOne | common/jmdec.cpp:304-320 | the scan stops at the first one bit at or behind the position |
| BitReader.ReadInfoWord | common/jmdec.cpp:327-337 | the bits that follow the leading one, as an int |
| BitReader.LinfoArithmetic | common/jmdec.cpp:162-185 | the 32-bit arithmetic of both mapping rules yields the code number and the signed value, up to length 63 |
| BitReader.LinfoDecodes | common/jmdec.cpp:162-185 | where the code of v stands, the mapping rules applied to what GetVLCSymbol reads give v and its signed value |
| BitReader.WholeCodewordPasses | common/jmdec.cpp:322-323 | a codeword that lies wholly inside the stream is never refused by the length test |
| BitReader.FixedLength | common/jmdec.cpp:113-127 | the int read for a u(n) code stands for its value, and is that value below 32 bits |
| BitReader.Bitstream.ReadSyntaxElementFLC | common/jmdec.cpp:374-389 | reads the bits at the position and moves past them; a refused read leaves the position unchanged |
| BitReader.Bitstream.ReadSyntaxElementVLC | common/jmdec.cpp:351-366 | reads the whole codeword at the position and moves exactly past it |
| BitReader.Bitstream.UeV | common/jmdec.cpp:48-59 | returns the value of the ue(v) element written at the position and moves to the next element |
| BitReader.Bitstream.SeV | common/jmdec.cpp:79-90 | returns the value of the se(v) element written at the position and moves to the next element |
| BitReader.Bitstream.UV | common/jmdec.cpp:113-127 | returns the value of the u(n) element written at the position and moves to the next element |
| BitReader.Bitstream.Flag | common/jmdec.cpp:147-150 | the u(1) element at the position as a Boolean |
| BitReader.RepeatUeV | common/jmdec.cpp:48-59 | n calls of ue_v return exactly the n values coded from the position on, at any bit offset and with anything behind them, and end behind the last code |
| BitReader.RepeatSeV | common/jmdec.cpp:79-90 | the same for se_v and signed values |
| ScalingLists.ScanIsPermutation | common/jmdec.h:98-107 | both scan tables are permutations: each position is scanned exactly once, and only the first scan goes to position 0 |
| ScalingLists.ScanIsZigZag | common/jmdec.h:98-107 | in a block of 4 or 8 columns the scan passes the diagonals in order, down the odd ones and up the even ones; with the permutation this fixes both tables |
| ScalingLists.DeltaUndone | common/jmdec.cpp:582-587 | the delta in -128..127 between two entries, added in the C remainder arithmetic, gives the next entry back |
| ScalingLists.ScalingList | common/jmdec.cpp:570-592 | reads any codable list of 16 or 64 entries back into its row, every entry once and no other row; the default flag is set exactly when the first next-scale is zero |
| HrdSyntax.ReadHRDParameters | common/jmdec.cpp:864-885 | reads back every HRD value written by E.1.2, including the loop over up to 32 CPBs, and stops at its end |
| VuiSyntax.ReadVUI | common/jmdec.cpp:491-567 | reads back every VUI value written by E.1.1 with its conditional sections, absent fields at their initial values; reads nothing when no VUI is present |
| VuiSyntax.ReadAspectAndOverscan | common/jmdec.cpp:495-510 | the aspect ratio and overscan sections, with the extended sizes only for aspect ratio 255 |
| VuiSyntax.ReadVideoSignal | common/jmdec.cpp:512-524 | the video signal section |
| VuiSyntax.ReadTiming | common/jmdec.cpp:531-537 | the timing section with its two 32-bit fields |
| VuiSyntax.ReadHrds | common/jmdec.cpp:538-551 | both HRD sections and the low delay flag that depends on either |
| VuiSyntax.ReadRestriction | common/jmdec.cpp:552-563 | the bitstream restriction section |
| SpsSyntax.HeadAppends | common/jmdec.cpp:605-708 | what comes before num_ref_frames is a bit string of its own that does not depend on what follows |
| SpsSyntax.SpsAppends | common/jmdec.cpp:605-730 | the code of a whole parameter set is a bit string of its own, whatever follows it |
| SpsReader.ReadHead | common/jmdec.cpp:605-707 | reads back everything before num_ref_frames, or refuses an unknown profile after eight bits |
| SpsReader.ReadLists | common/jmdec.cpp:679-690 | the loop over 8 or 12 scaling lists reads back all lists and flags |
| SpsReader.ReadCycle | common/jmdec.cpp:700-707 | the fields and offsets of picture order count type 1 |
| SpsReader.ReadRest | common/jmdec.cpp:708-730 | reads back everything from num_ref_frames on, with the VUI |
| SpsReader.InterpretSPS | common/jmdec.cpp:595-735 | for every well-formed parameter set written at any bit offset, with anything behind it, the structure holds exactly that parameter set and the position has moved by exactly the length of its code; -1 exactly when the next eight bits denote none of 66, 77, 88, 100, 110, 122, 244 and 44 |
| SpsReader.WriteAndInterpret | common/jmdec.cpp:595-735 | from one end to the other: a parameter set written into bytes is read back, up to the last bit of its code |
| SpsReader.InterpretBytes | common/jmdec.cpp:595-735 | any bytes that start with the code of a parameter set are read as it |
| KnownHigh.BitsOfHigh | common/jmdec.cpp:607-733 | the 193 bits, as bytes, of a High profile parameter set with all fields different: 1920x1080 with four cropping offsets, order type 0, scaling lists of three scales, of the default and of two scales |
| KnownHigh.InterpretHigh | common/jmdec.cpp:595-735 | InterpretSPS on these bytes returns these fields, among them profile 100, width 119 and height 67 |
| KnownFull.BitsOfFull | common/jmdec.cpp:607-733 | the 544 bits of a High 4:4:4 parameter set: separate planes, twelve lists with one of sixteen scales and one that wraps, order type 1 with two offsets, interlaced with adaptive frames, all VUI sections and both HRDs |
| KnownFull.InterpretFull | common/jmdec.cpp:595-735 | InterpretSPS on these bytes returns these fields |
| KnownPlain.BitsOfBare | common/jmdec.cpp:607-733 | the bits of an interlaced Extended profile parameter set, order type 2, with a VUI in which nothing is present |
| KnownPlain.BitsOfNal | common/jmdec.cpp:538-551 | the same in the Main profile with the NAL HRD alone, which brings the low delay flag |
| KnownPlain.BitsOfVcl | common/jmdec.cpp:495-551 | the same in the Baseline profile with the VCL HRD alone, an aspect ratio other than 255 and no colour description |
| KnownPlain.InterpretVcl | common/jmdec.cpp:595-735 | InterpretSPS on the last of these |
| KnownCodes.FoldIs | common/jmdec.cpp:113-127 | the number that a script of short codes denotes, computed code by code, is that of its bits |
| KnownCodes.SameBits | common/jmdec.cpp:206-238 | bits and bytes that denote the same number up to some spare bits are the same bits |
| SpsReader.BaselineCanBeWritten | common/jmdec.cpp:605-733 | baseline parameter sets of any level, size and number of reference frames meet what the round trip asks for |
| SpsPatch.CopyOneBitSets | common/jmdec.cpp:857-857 | the masked copy of one bit (ZBit::CopyVarBits, lines 173 to 194 of common/zbitop.h) sets exactly that bit of a byte |
| SpsPatch.CopyZerosClears | common/jmdec.cpp:857-857 | the masked copy of zero bits (ZBit::CopyVarBits) clears exactly the leading bits of a byte |
| SpsPatch.VarToPoint | common/jmdec.cpp:857-857 | the macro (ZBit::VarToPoint, lines 250 to 299 of common/zbitop.h) for every pattern entry after its conversion to short: one bit set behind a skip, nothing written for zero, the start of the buffer overwritten for a positive entry, no defined outcome when a shift is too wide |
| SpsPatch.PatchRightIff | common/jmdec.cpp:856-857 | on a buffer whose bit n is clear, the call with -n sets bit n and changes nothing else exactly when n is from 1 to 2^15 |
| SpsPatch.PatchFails | common/jmdec.cpp:856-857 | what happens one bit further, at 65535 and at 65536 bits |
| SpsPatch.UndefinedIff | common/jmdec.cpp:856-857 | below 65536 bits the outcome is undefined exactly from 32769 to 65497 |
| SpsPatch.HeadLength | common/jmdec.cpp:747-853 | num_ref_frames of a well-formed parameter set starts within a fixed number of bits, below 2^15 |
| SpsPatch.FlagInReach | common/jmdec.cpp:747-857 | whatever a parameter set contains, the patch is right when it starts at the beginning of the buffer, or up to a fixed bit behind it |
| SpsPatch.PatchedSps | common/jmdec.cpp:851-858 | setting the bit behind num_ref_frames turns the code of a parameter set into the code of the same one with the gaps flag set |
| SpsPatch.ModifySPS | common/jmdec.cpp:737-862 | wherever at most 2^15 bits come before the flag: reads the same head as InterpretSPS, changes exactly one bit of the buffer, and leaves the code of the patched parameter set at the old position |
| SpsPatch.PatchAndInterpret | common/jmdec.cpp:737-862 | InterpretSPS on the patched buffer returns the old parameter set with only the gaps flag set |
| EmulationPrevention.EBSPtoRBSP | common/jmdec.cpp:900-936 | in place: the kept bytes move to the front of the range, the bytes behind the last one written are untouched, -1 on a forbidden byte; the write index never passes the read index |
| EmulationPrevention.StripEscape | common/jmdec.cpp:900-936 | the escaping of any payload yields the payload and its length |
| EmulationPrevention.AcceptedIff | common/jmdec.cpp:900-936 | an input is accepted with output r exactly when it is the escaping of r, up to one last 3 after two zeros |
| EmulationPrevention.StripToTheLetter | common/jmdec.cpp:920-922 | with a last 3 after any trailing zero the payload comes back exactly when it ends in an even number of zeros |
| EmulationPrevention.EscapedIsClean | common/jmdec.cpp:912-914 | no escaping contains the patterns EBSPtoRBSP refuses |
| EmulationPrevention.EscapedIff | common/jmdec.cpp:912-920 | escaping changes a payload exactly when it holds two zeros and then a byte 0 to 3 |
| EmulationPrevention.UnPkt | common/jmdec.cpp:960-967 | returns every payload from its escaping; whatever it accepts is the escaping of what it leaves |
| RingBuffer.WrapIsRemainder | libeasyice/src/EasyICEDLL/CircularBuffer.cpp:49-67 | one wrap-around subtraction is the remainder the code computes, for indices up to twice the size |
| RingBuffer.CCircularBuffer.constructor | libeasyice/src/EasyICEDLL/CircularBuffer.cpp:19-42 | an empty queue of the given size |
| RingBuffer.CCircularBuffer.Empty | libeasyice/src/EasyICEDLL/CircularBuffer.cpp:47-50 | true exactly when nothing is queued |
| RingBuffer.CCircularBuffer.Full | libeasyice/src/EasyICEDLL/CircularBuffer.cpp:55-58 | true exactly when all slots but one are queued |
| RingBuffer.CCircularBuffer.WriteItem | libeasyice/src/EasyICEDLL/CircularBuffer.cpp:60-77 | appends the item to the queue unless full; writes one slot only, which is neither queued nor the one last returned by ReadItem |
| RingBuffer.CCircularBuffer.ReadItem | libeasyice/src/EasyICEDLL/CircularBuffer.cpp:79-94 | removes the oldest item and returns the slot that still holds it, which is now the gap slot |
| RingInterleaving.StepKeeps | libeasyice/src/EasyICEDLL/CircularBuffer.cpp:60-94 | every single access of either thread keeps the invariant |
| RingInterleaving.TargetIsFree | libeasyice/src/EasyICEDLL/CircularBuffer.cpp:67-71 | while the writer is at work, its slot is not queued, not lent and not being read |
| RingInterleaving.EveryRun | libeasyice/src/EasyICEDLL/CircularBuffer.cpp:47-94 | in every interleaving the accepted items, and the one the writer is at work on, are exactly those passed to WriteItem while fewer than size-1 items were accepted and undelivered, read off the steps alone; the delivered ones are a prefix of them, unmodified; each finished call counts once; the rest is whole in the ring; the lent pointer shows the last delivered item until the next ReadItem |
| RingInterleaving.RefusedIffFull | libeasyice/src/EasyICEDLL/CircularBuffer.cpp:62-65 | a write is refused exactly when size-1 items are accepted and not yet delivered, whatever the reader is doing |
| RingInterleaving.ReadsIffQueued | libeasyice/src/EasyICEDLL/CircularBuffer.cpp:81-85 | a read starts exactly when an accepted item is not yet delivered |
| RingInterleaving.ReadReturns | libeasyice/src/EasyICEDLL/CircularBuffer.cpp:87-93 | the returned pointer shows the oldest undelivered item and keeps showing it until the next ReadItem, whatever is written meanwhile |
| RingInterleaving.WriteFinishes | libeasyice/src/EasyICEDLL/CircularBuffer.cpp:60-77 | from every state the writer can finish its call without the reader, and exactly its item is accepted |
| RingInterleaving.ReadFinishes | libeasyice/src/EasyICEDLL/CircularBuffer.cpp:79-94 | from every state the reader can finish its call without the writer |
| RingInterleaving.Transfers | libeasyice/src/EasyICEDLL/CircularBuffer.cpp:60-94 | through an empty ring every item that fits a slot is delivered by one write and one read |
| AsyncSaver.StepKeeps | libhlsanalysis/src/AsyncSaveFile.cpp:39-114 | every step of a producer, the worker or the stopper keeps the invariant |
| AsyncSaver.EveryRun | libhlsanalysis/src/AsyncSaveFile.cpp:57-114 | in every interleaving the received segments have exactly the URLs and data of the OnRecvTs calls, read off the steps alone, and those of the saved ones are a prefix; received = saved ++ still queued; buffers are freed in order, once each, only after their segment was saved; the front stays valid while it is used outside the lock |
| AsyncSaver.AfterStop | libhlsanalysis/src/AsyncSaveFile.cpp:39-50 | after the join the saved segments are a prefix of the received ones and the rest is exactly the queue, unfreed; together they are all that was handed in |
| AsyncSaver.NeverStuck | common/zevent.cpp:65-101 | in every reachable state the worker can step, and a timed-out wait leads back to the check of the queue |
| AsyncSaver.NoLostWakeUp | common/zevent.cpp:47-101 | once every producer and Stop have called Set, a worker asleep without a signal has an empty queue and no stop flag; with something to do it goes on without the timeout |
| AsyncSaver.EventuallySaved | libhlsanalysis/src/AsyncSaveFile.cpp:81-114 | n unsaved segments are saved within 6n+5 steps of the worker, whether its waits end by signals or timeouts |
| AsyncSaver.StopTerminates | libhlsanalysis/src/AsyncSaveFile.cpp:39-50 | once the stop flag is set the worker takes at most six more steps and saves at most one more segment |
| AsyncSaver.StopReturns | libhlsanalysis/src/AsyncSaveFile.cpp:39-50 | from every reachable state a call of Stop can run to the end of its join, with at most six steps of the worker |
| AsyncSaver.OneSegment | libhlsanalysis/src/AsyncSaveFile.cpp:57-114 | one call of OnRecvTs and six steps of the worker save its segment, free its buffer and empty the queue |
| LineReader.LinesOfJoined | libhlsanalysis/src/creadline.cpp:48-101 | splitting inverts joining: any lines joined by any non-empty mixes of CR and LF come back |
| LineReader.JoinOfLines | libhlsanalysis/src/creadline.cpp:48-101 | joining inverts splitting: every text without NUL is its lines joined by terminators, and only the first line may be empty |
| LineReader.NulDropsTheRest | libhlsanalysis/src/creadline.cpp:87-91 | nothing behind a NUL in the text is ever returned |
| LineReader.LinesByText | libhlsanalysis/src/creadline.cpp:66-101 | on literal text: CR and LF end a line, alone or together, and a NUL ends the text |
| LineReader.CReadLine.SetString | libhlsanalysis/src/creadline.cpp:33-46 | refuses an empty text, else all its lines are pending |
| LineReader.CReadLine.ReadLine | libhlsanalysis/src/creadline.cpp:48-64 | returns the first pending line, or the empty string at the end; every call before the end comes closer to it |
| LineReader.CReadLine.ReadLineAt | libhlsanalysis/src/creadline.cpp:66-101 | the line at a position and the start of the next one |
| LineReader.CReadLine.FindBreak | libhlsanalysis/src/creadline.cpp:75-80 | the first loop stops at the first terminator or NUL |
| LineReader.CReadLine.SkipBreaks | libhlsanalysis/src/creadline.cpp:85-98 | the second loop passes a run of terminators, and all the rest after a NUL |
| RelativeUris.relative_URI | libhlsanalysis/src/cm3u8parse.cpp:149-194 | equals the resolution function the following lemmas are about |
| RelativeUris.CutOff | libhlsanalysis/src/cm3u8parse.cpp:180-185 | cutting n times removes exactly a tail that starts with a slash and holds n slashes |
| RelativeUris.CutFailsIff | libhlsanalysis/src/cm3u8parse.cpp:180-185 | cutting n times fails exactly when the URL has fewer than n slashes |
| RelativeUris.ClimbsWithinPath | libhlsanalysis/src/cm3u8parse.cpp:173-189 | a path of n steps up against root/s1/../sm/f gives root with the first m-n segments and the rest of the path, for n up to m |
| RelativeUris.UnresolvedIff | libhlsanalysis/src/cm3u8parse.cpp:180-183 | a relative path of n steps up is not resolved exactly when the URL has at most n slashes |
| RelativeUris.ResolveFailsIff | libhlsanalysis/src/cm3u8parse.cpp:149-194 | for every URL and path, when no URL results |
| UriAgreement.AgreesIff | libhlsanalysis/src/cm3u8parse.cpp:149-194 | for every URL of a playlist and every reference, exactly when the URL used is the one of sections 5.2.2 to 5.2.4 of RFC 3986: on http URLs without dot segments; never on absolute paths and other schemes; on other references by their dot segments, the steps up, and the slashes in the query of the base |
| UriAgreement.HttpUrls | libhlsanalysis/src/cm3u8parse.cpp:149-149 | URLs of any path and query on any host but a dot segment are among those of AgreesIff |
| UriAgreement.SegmentsAgreeIff | libhlsanalysis/src/cm3u8parse.cpp:173-188 | the same for relative paths, on lists of segments |
| Rfc3986.ParseComposed | libhlsanalysis/src/cm3u8parse.cpp:149-194 | the reference side: a text parsed by appendix B of RFC 3986 and recomposed by section 5.3 is itself |
| Rfc3986.RemovedFromPath | libhlsanalysis/src/cm3u8parse.cpp:149-194 | the reference side: the rules of section 5.2.4 on strings compute a stack of segments |
| Rfc3986.RemovedExample | libhlsanalysis/src/cm3u8parse.cpp:149-194 | the reference side: the first example of section 5.2.4 |
| Rfc3986.KeptIff | libhlsanalysis/src/cm3u8parse.cpp:156-157 | section 5.2.4 leaves a path as it is exactly when it has no dot segment |
| RelativeUris.AbsoluteDoublesSlash | libhlsanalysis/src/cm3u8parse.cpp:165-188 | every absolute path comes out behind the authority with a doubled slash |
| RelativeUris.ClimbsOverRoot | libhlsanalysis/src/cm3u8parse.cpp:180-185 | a concrete path that climbs over the root and loses the authority |
| Attributes.parse_Attributes | libhlsanalysis/src/cm3u8parse.cpp:116-146 | the text up to the next comma behind the first place, from the first colon on, where the name and an equals sign stand |
| Attributes.FoundIff | libhlsanalysis/src/cm3u8parse.cpp:126-131 | for every attribute list, quoted or not, the scan stops at an attribute of the name exactly when no attribute before it mentions the name in front of an equals sign |
| Attributes.FoundIsValue | libhlsanalysis/src/cm3u8parse.cpp:116-146 | then the value up to its first comma is returned, even inside quotes; it is the whole value exactly when that has no comma; an empty value at the end counts as missing |
| Attributes.NotFound | libhlsanalysis/src/cm3u8parse.cpp:142-145 | a name that no attribute mentions is not found |
| Attributes.CutInsideQuotes | libhlsanalysis/src/cm3u8parse.cpp:139-140 | a concrete quoted value that is cut at its comma |
| Attributes.FoundInsideName | libhlsanalysis/src/cm3u8parse.cpp:126-131 | a concrete list where the name is found inside another name |
| KeyIvs.string_to_IV | libhlsanalysis/src/cm3u8parse.cpp:284-319 | refused exactly without prefix or with up to 16 characters; else the 16 bytes hold both halves, and equal the big-endian number exactly when it fits |
| KeyIvs.IvIsValue | libhlsanalysis/src/cm3u8parse.cpp:302-316 | two halves of 64 bits, stored big-endian, make the hexadecimal number exactly when it is below 2^128, as for 17 to 32 digits |
| KeyIvs.StoreWords | libhlsanalysis/src/cm3u8parse.cpp:311-316 | the loop from the last byte down stores both words big-endian |
| KeyIvs.StrToULLOfDigits | libhlsanalysis/src/cm3u8parse.cpp:302-306 | strtoull on digits alone gives their value, cut off at the largest word |
| KeyIvs.StrToULLByText | libhlsanalysis/src/cm3u8parse.cpp:302-306 | strtoull on literal texts with blanks, signs, a prefix and trailing characters |
| KeyIvs.DigitsByText | libhlsanalysis/src/cm3u8parse.cpp:302-306 | the values of the hexadecimal digits in both cases |
| TagSniffer.isHTTPLiveStreaming | libhlsanalysis/src/cm3u8parse.cpp:636-689 | true exactly when the text starts with #EXTM3U and one of the eight tags stands wholly behind it |
| TagSniffer.NoTagInside | libhlsanalysis/src/cm3u8parse.cpp:672-676 | no tag starts within the six characters that are skipped after a partial match |
| TagSniffer.TagsByText | libhlsanalysis/src/cm3u8parse.cpp:653-662 | the eight tags by their full text |
| SegmentInfo.strtok_r | libhlsanalysis/src/cm3u8parse.cpp:24-49 | in the buffer: cuts the next token out by a NUL, returns its position and that of the rest |
| SegmentInfo.parse_SegmentInformation | libhlsanalysis/src/cm3u8parse.cpp:51-98 | the duration on the line under the given protocol version, or a failure |
| SegmentInfo.DurationTextOf | libhlsanalysis/src/cm3u8parse.cpp:56-65 | on a line of tag, colon, text and optional comma the duration is read from exactly that text |
| SegmentInfo.RoundedIs | libhlsanalysis/src/cm3u8parse.cpp:89-92 | the rounding is to the nearest integer, halves up; a negative value loses its fraction |
| Playlists.hls_stream_t.parse_Key | libhlsanalysis/src/cm3u8parse.cpp:322-434 | the outcome, the key path and the IV for every key line, including the branch without defined behaviour |
| Playlists.UndefinedIff | libhlsanalysis/src/cm3u8parse.cpp:384-393 | exactly which key lines assign a null pointer to the key path or read behind the URL |
| Playlists.UndefinedLine | libhlsanalysis/src/cm3u8parse.cpp:388-393 | a concrete key line that does so for every URL |
| Playlists.KeyIsInForceIff | libhlsanalysis/src/cm3u8parse.cpp:335-355 | a segment has the key path of section 4.3.2.4 of RFC 8216 exactly when the last key line before it that sets or clears the key sets it, or there was no key to clear or to carry over |
| Playlists.KeyStaysAfterNone | libhlsanalysis/src/cm3u8parse.cpp:335-355 | a concrete playlist whose segment is parsed with a key that METHOD=NONE has ended |
| Playlists.CM3u8Parse.parse_AddSegment | libhlsanalysis/src/cm3u8parse.cpp:609-633 | appends one segment with the resolved URL, the duration and the key path in force, unless the path cannot be looked up in so short a URL |
| Playlists.CM3u8Parse.ParseLine | libhlsanalysis/src/cm3u8parse.cpp:549-599 | what each kind of line changes (version, key path, target duration, caching, pending duration, segments) and when it fails; a failing line adds no segment |
| Playlists.CM3u8Parse.ParseStream | libhlsanalysis/src/cm3u8parse.cpp:522-607 | appends exactly the segments of the URI lines before the first failing line, returns that line's failure or success, leaves the version, key path, target duration and caching of the lines up to that one, and counts the segments; promises nothing of the kind after a line without defined behaviour |
| Playlists.CM3u8Parse.ParseLines | libhlsanalysis/src/cm3u8parse.cpp:538-602 | the loop: one line after another up to the first empty or failing one |
| Playlists.SegmentOfUriLine | libhlsanalysis/src/cm3u8parse.cpp:595-599 | the k-th URI line gives the k-th segment, with the duration and the key path in force at that line |
| Playlists.DurationFromInf | libhlsanalysis/src/cm3u8parse.cpp:549-598 | a segment has the duration of the last #EXTINF line since the previous URI line, read under the version in force there |
| Playlists.NoDuration | libhlsanalysis/src/cm3u8parse.cpp:539-598 | without such a line the duration is -1 |
| Playlists.KeyFromLine | libhlsanalysis/src/cm3u8parse.cpp:571-574 | a key path stays in force up to the next line that sets one |
| Playlists.LinesAreParsed | libhlsanalysis/src/cm3u8parse.cpp:534-547 | all lines of a playlist joined by any terminators are parsed, in order |
| Playlists.ParsedInFullIff | libhlsanalysis/src/cm3u8parse.cpp:543-547 | all lines of a text are parsed exactly when it does not start with a line break or a NUL; then none is |
| PlaylistLines.KindIff | libhlsanalysis/src/cm3u8parse.cpp:549-595 | the five tags with an effect by their text, and URI lines as those that do not start with '#' |
| PlaylistLines.DurationLine | libhlsanalysis/src/cm3u8parse.cpp:549-556 | "#EXTINF:" and a text set the pending duration to what strtol makes of exactly that text below version 3, and to the rounded value of strtof from 3 on, and change nothing else |
| PlaylistLines.NoColon | libhlsanalysis/src/cm3u8parse.cpp:56-62 | an #EXTINF line without a colon fails and changes nothing |
| PlaylistLines.VersionLine | libhlsanalysis/src/cm3u8parse.cpp:242-264 | "#EXT-X-VERSION:" and a number set the version, and fail unless it is 1, 2 or 3 |
| PlaylistLines.TargetDurationLine | libhlsanalysis/src/cm3u8parse.cpp:557-560 | "#EXT-X-TARGETDURATION:" and a number set the target duration and nothing else |
| PlaylistLines.AllowCacheLine | libhlsanalysis/src/cm3u8parse.cpp:267-281 | "#EXT-X-ALLOW-CACHE:" and any word allow caching unless the word starts with NO |
| PlaylistLines.QuotedKeyLine | libhlsanalysis/src/cm3u8parse.cpp:373-387 | for any whole URL without quotes and commas, in quotes behind URI=, the key path becomes exactly that URL and nothing else changes |
| PlaylistLines.SmallKey | libhlsanalysis/src/cm3u8parse.cpp:328-387 | the same line in small letters |
| PlaylistLines.KeyWithIv | libhlsanalysis/src/cm3u8parse.cpp:397-426 | with IV= behind it the IV is found as it stands, and the line succeeds exactly with a prefix and more than sixteen digits |
| PlaylistLines.NoneWithIv | libhlsanalysis/src/cm3u8parse.cpp:335-355 | METHOD=NONE with an IV fails exactly from version 2 on |
| PlaylistLines.NoneWithUri | libhlsanalysis/src/cm3u8parse.cpp:335-343 | METHOD=NONE with a URI always fails |
| PlaylistLines.OtherMethod | libhlsanalysis/src/cm3u8parse.cpp:427-431 | a method that is neither NONE nor AES-128 fails and sets no key path |
| PlaylistLines.MissingUri | libhlsanalysis/src/cm3u8parse.cpp:364-370 | AES-128 without a URI fails and sets no key path |
| PlaylistLines.MissingMethod | libhlsanalysis/src/cm3u8parse.cpp:328-333 | a key line without a method succeeds and sets no key path |
| PlaylistLines.OtherTags | libhlsanalysis/src/cm3u8parse.cpp:561-594 | every other line that starts with '#' succeeds and changes nothing |
| PlaylistLines.UriLine | libhlsanalysis/src/cm3u8parse.cpp:595-599 | every line that does not start with '#' adds one segment with the pending duration, which is used up |
| PlaylistLines.PlainPlaylist | libhlsanalysis/src/cm3u8parse.cpp:522-607 | the text of a header, a duration line and a URI line gives, under a version below 3, one segment with the duration of strtol |
| PlaylistLines.Version3Playlist | libhlsanalysis/src/cm3u8parse.cpp:522-607 | behind the line "#EXT-X-VERSION:3" it is the rounded duration of strtof |
| PidTable.FirstSeenDistinct | libeasyice/src/EasyICEDLL/MpegDec.cpp:351-371 | the first-seen list holds exactly the PIDs that occur, each once |
| PidTable.FirstSeenOrder | libeasyice/src/EasyICEDLL/MpegDec.cpp:351-371 | it is in the order of their first packets |
| PidTable.OccurrencesCount | libeasyice/src/EasyICEDLL/MpegDec.cpp:351-371 | the counts are those of the multiset of packets |
| PidTable.TotalIsPackets | libeasyice/src/EasyICEDLL/MpegDec.cpp:499-520 | the counts of all distinct PIDs add up to the number of packets |
| PidTable.SharesSumToOne | libeasyice/src/EasyICEDLL/MpegDec.cpp:523-529 | the percentages add up to one |
| PidTable.CMpegDec.constructor | libeasyice/src/EasyICEDLL/MpegDec.cpp:92-105 | an empty, sentinel-terminated table |
| PidTable.CMpegDec.CalcPidList | libeasyice/src/EasyICEDLL/MpegDec.cpp:351-371 | the table stays the histogram of all packets in first-seen order; it keeps its sentinel exactly below 1000 distinct PIDs |
| PidTable.CMpegDec.UpdatePidListResult | libeasyice/src/EasyICEDLL/MpegDec.cpp:496-531 | the result map is the histogram with shares of the total; unknown packet types are entered with the default of operator[] |
| PidTable.CMpegDec.CopyTable | libeasyice/src/EasyICEDLL/MpegDec.cpp:499-520 | the first loop copies every entry and adds up the counts |
| PidTable.CMpegDec.SetPercents | libeasyice/src/EasyICEDLL/MpegDec.cpp:523-529 | the second loop sets every share and changes nothing else |
| DownloadBuffer.ContentsSinceReset | libhlsanalysis/src/DlBuffer.cpp:35-78 | over any run of calls the contents are the chunks since the last reset up to the first that would pass the limit, and the error flag tells whether there was one |
| DownloadBuffer.RefusedIffOverLimit | libhlsanalysis/src/DlBuffer.cpp:42-55 | with chunks of at most 7700480 bytes the buffer cannot grow exactly when the total would pass 30801920 |
| DownloadBuffer.CDlBuffer.constructor | libhlsanalysis/src/DlBuffer.cpp:20-26 | an empty buffer of 7700480 bytes |
| DownloadBuffer.CDlBuffer.Append | libhlsanalysis/src/DlBuffer.cpp:35-72 | appends the chunk or refuses it, changing only the error flag; with small chunks refused exactly above the limit or after an earlier refusal |
| DownloadBuffer.CDlBuffer.MoveAndStore | libhlsanalysis/src/DlBuffer.cpp:58-64 | growing keeps the contents and appends the chunk |
| DownloadBuffer.CDlBuffer.ResetData | libhlsanalysis/src/DlBuffer.cpp:74-78 | clears the contents and the error flag and keeps the size |

## Left out

- Sockets, HTTP, files, JSON, logging, thread creation, memory allocation failure and the trace macros.
- The MVC extension branches of the parameter set, which are compiled out, and the warning that is
  printed for bit depths above that of a picture sample.
- Truncated bitstreams: the length tests of the readers are lax by up to a byte and the callers then use
  values that were never assigned, so complete codewords are required.
- BitReader.GetVLCSymbol: requires a one bit inside the buffer, because the scan for it has no bound.
- SpsPatch.ModifySPS: requires that at most 2^15 bits come before the flag; what the macro does further
  on is in SpsPatch.VarToPoint and SpsPatch.PatchRightIff.
- SpsPatch.VarToPoint: for entries of ModifySPS only, a number of bits to skip or to copy and then one bit.
  Where the mask needs a shift of -1 by a negative amount, which C++ leaves undefined, it takes the value
  every shift that keeps -1 gives.
- The arrays inside the parameter set structures other than the scaling tables are sequence fields.
- RingBuffer.CCircularBuffer.constructor: the C++ constructor and Init in one; the item storage has one
  row per slot, and a returned pointer is a slot number.
- RingInterleaving.EveryRun: interleaves single accesses under sequential consistency; the C++ code has
  no fences.
- AsyncSaver.EveryRun: the front of the deque is taken as a value, which stands for the iterator that is
  used while other threads push; what pushing does to deque iterators is not modelled.
- PidTable.CMpegDec.SetPercents: percentages are exact real numbers, not floats.
- InitPacketType and FillPacketType: they only fill the packet type map, which is a parameter here.
- RelativeUris.relative_URI: requires a URL of eight characters for absolute paths, which the code skips
  without a test; its callers here have the outcome Undefined instead.
- UriAgreement.AgreesIff: for URLs with a scheme of at most five characters, as http and https have, an
  authority that is no dot segment, and an absolute path.
- Playlists.KeyIsInForceIff: leaves out KEYFORMAT, which the code does not read.
- Playlists.CM3u8Parse.ParseStream: requires a non-empty text, because the reader is not set up for an
  empty one and the code does not test that; nothing is claimed about the segments after an undefined line.
- The sequence number, size and bandwidth of a segment, and ParseMeta with parse_StreamInformation.
- SegmentInfo.parse_SegmentInformation: numbers are scanned by parameters, so the range of a float that
  is converted to int is not modelled.
- KeyIvs.string_to_IV: the NUL written into the attribute value between the halves is not modelled.
- DownloadBuffer.CDlBuffer.Append: requires that the size it computes for a chunk that does not fit is an
  int, as the code does.
