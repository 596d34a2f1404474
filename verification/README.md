# libspectrum, modelled

libspectrum reads, writes and plays the files of ZX Spectrum emulators. This project models the parts of it that are state
machines, codecs and arithmetic, and proves what they are for.

- **Tapes.** `TapeEdges` says what each kind of block sounds like, as a flat list of edges, and how long it lasts.
  `TapePlayers`, `GeneralisedData`, `SampledData` and `LevelledData` are the block players of tape.c, which take one edge
  off that list per call; `TapeLengths` has the closed forms of tape_block.c. `TapeRun` is the outer machine with its
  loops, `TapeFlags` says which edges end a block or the tape, and `TapeDeck` is the player that joins both levels.
- **Tape files.** `Tzx` and `TzxFile` write and read .tzx files (revision 1.20 of the TZX format), `Tap` the four kinds of
  .tap files, `Pzx` reads pulse sequences and turns them into .tzx blocks, `Csw` resamples a tape to run lengths, `CswTapes`
  says which tapes that loses no time of, `Raster` turns run lengths into samples, and `Warajevo` decompresses.
- **Snapshots.** `Z80Codec` is the run-length codec of .z80 files and the scanner for the end of a version 1 block;
  `Z80Pages` are the page records around it.
- **Mass storage.** `HashTable` is the table behind the sector caches, `Drives` an image with such a cache, `Ide` an ATA
  drive with its registers, and `SdCard` an SD card on its serial bus (SD Physical Layer Simplified Specification, sections
  7.2.3 to 7.2.5), which the fields and buffers of `MmcCard` refine. `Microdrive` has the checksums of a cartridge.
- **Input recordings.** `Rzx` records frames and keeps them in a file, `RzxRecordings` plays them and joins them.

Each algorithm appears twice where that says something: as a function on values, about which the theorems are proved, and
as a method with the loops and fields of the source, which computes that function. (In `TzxFile`, that is so of the blocks
with loops; blocks that are a few fields in a row are printed and read by the functions of `Tzx` themselves.) C integers
are unbounded numbers with their wrap-around written out. The error `Undefined` stands for a read or write outside the
caller's memory, which the C code does not prevent. Files, clocks and foreign libraries are left to parameters: an image
is a sequence of bytes whose reads and writes succeed, a tape is a sequence of blocks.

Where a reader is proved to undo a writer, the lemmas named `...Layout` fix the bytes between them; where an edge or an
answer on a bus is worked out by a function that the method shares, a lemma says in numbers what it is (`SequenceLevels`,
`RomShape`, `EdgeOfBit`, `AnswersAlways`, `SectorReadsBack`, `XorIsGroup` and others).

Where the code does not do what its documentation or the formats say, the model follows the code; one lemma says exactly
when the two agree, and another shows an input at which they do not:

- sector positions are computed in 32 bits: `Drives.WritesAreFaithfulUpTo4Gb`, `Drives.SectorsMeet`;
- a mask is shifted before it is applied: `Ide.HeadBitsAreLost`, `Ide.HeadBitIsLost`;
- lengths are worked out in a dword, and last bytes without bits are played: `TapeEdges.DurationAgrees`,
  `TapeEdges.TooLongForADword`, `TapeEdges.NoBitsInLastByte`;
- raw data is played for a sample more than its length says: `SampledData.RawDataLastsLonger`;
- raw data is played from the bottom of its last byte: `Raster.RecordingPlaysBack`, `Raster.NinthSampleIsLost`;
- a loop that ends the tape has an edge more: `TapeRun.UnrollingKeepsTheSound`, `TapeRun.LoopAroundATone`;
- the carried time overflows its dword: `Csw.NoDrift`, `CswTapes.TwoLongPauses`;
- a block that starts with a repeat is merged: `RzxRecordings.MergeKeepsPlayback`, `RzxRecordings.RepeatBehindABlock`;
- an empty block is merged: `RzxRecordings.MergeKeepsSoundness`, `RzxRecordings.EmptyBehindABlock`;
- fields are written and read differently: `Tzx.SelectBack`, `Tzx.SelectionIsLast`, `Tzx.MessageBack`,
  `Tzx.MessageOfASecond`;
- only the milliseconds of a pause are written: `Tzx.BlockRoundTrip`, `Tzx.PauseIsRounded`;
- more pulses are written than their number has room for, and pulses of no length as edges: `Pzx.CompiledPlaysTheSame`,
  `Pzx.TooManyPulsesInARow`, `Pzx.PulseOfNoLength`.

`dafny verify dfyconfig.toml` checks the whole project.

## Model

| member | source | states |
|---|---|---|
| Bytes.LowestFirst | libspectrum.c:997-1040 | Words and dwords have their lowest byte first |
| Z80Codec.RoundTrip | z80.c:1723-1858 | Decompressing exactly the compressed form of any byte string gives the string back, whatever lies behind it in the buffer: after a lone 0xED neither another one nor a run token is written |
| Z80Codec.CompressBlock | z80.c:1723-1805 | The loop with `last_char_ed` writes the compressed form, the one that RoundTrip, SizeBound and NoMarkerInside are about |
| Z80Codec.UncompressBlock | z80.c:1807-1858 | The loop over the input yields what its first bytes expand to, reading at most a cut-off run's count and byte from beyond them |
| Z80Codec.MeasureRun | z80.c:1743-1760 | The length of the run that starts here, 255 at most |
| Z80Codec.RunIsCoded | z80.c:1723-1805 | A run of five bytes or more becomes ED ED, its length and the byte, and so do two bytes ED and more; shorter runs stay |
| Z80Codec.SingleEd | z80.c:1723-1805 | Behind a single ED another byte stays as it is, and the rest is compressed on its own |
| Z80Codec.SizeBound | z80.c:1723-1805 | Three times the compressed length is at most five times the length plus two |
| Z80Codec.SizeBoundIsMet | z80.c:1723-1805 | The string ED ED meets the bound with equality, so no smaller one would do |
| Z80Codec.FindEnd | z80.c:979-1026 | The scanner's automaton stops just past the first 00 ED ED 00, and fails exactly when there is none |
| Z80Codec.NoMarkerInside | z80.c:1723-1805 | No end marker begins inside compressed bytes, not even one that reaches into what follows them |
| Z80Codec.FirstMarkerEndsBlock | z80.c:979-1026 | Scanning a compressed block followed by the marker ends at exactly that marker |
| Z80Pages.ReadV1Block | z80.c:965-1046 | A block is accepted exactly when a first marker exists and what is before it expands to 48K, and then that is the data |
| Z80Pages.V1RoundTrip | z80.c:965-1046 | Any 48K of memory is recovered from its compressed form and the marker |
| Z80Pages.WritePage | z80.c:1611-1638 | A page is appended as the length, number and data that the reader's round trip is about, under each compression argument |
| Z80Pages.NeverTheSentinel | z80.c:1611-1638 | No compressed page of 16K is long enough for its length to be taken for the 0xffff of an uncompressed page |
| Z80Pages.PageRecordRoundTrip | z80.c:1058-1111 | A page record reads back as its number and its page, under every compression argument |
| Z80Pages.RecordLayout | z80.c:1611-1638 | The bytes of a page record: length, number and data, with ff ff for a page that is stored as it is, which is so exactly when it need not be compressed and may not be, or would not get shorter |
| Z80Pages.WhichRecords | z80.c:1058-1111 | When a record cannot be read: exactly without a head, as the start of the SLT extension, when the file ends inside it, or when expanding it would read on past the end |
| Z80Pages.PlaceUndoesFileNumber | z80.c:1576-1597 | The numbers that the writer gives to pages 0-7, or 0-15 on a Scorpion, are undone by the reader, on exactly the pages that the machine stores |
| Z80Pages.WhichPages | z80.c:884-945 | A page of a file is unknown exactly from 19 on or at 0, is thrown away exactly as a ROM of its machine, and otherwise has a place that no other page has |
| Z80Pages.RecordsRoundTrip | z80.c:1540-1609 | Reading the records of a list of pages adds exactly those pages |
| Z80Pages.PagesRoundTrip | z80.c:1540-1609 | Writing the pages of a machine and reading them restores every page that the machine stores, under all four pairs of compression flags |
| Z80Pages.Snap.Write | z80.c:1540-1609 | The loop over the pages writes the records that PagesRoundTrip is about |
| Z80Pages.Snap.Read | z80.c:675-712 | The reader's loop leaves the pages that the records stand for, or the first error |
| TapeEdges.EdgePairOfBit | tape.c:590-653 | Edges 2k and 2k + 1 of a block of data have the length of a set bit exactly when bit k is 1, and are flagged short exactly when that is the length of a bit that is not set, long otherwise |
| TapeEdges.BitPosition | tape.c:622-653 | Bit k is bit k modulo 8 of its byte, most significant first, and the last byte gives as many as it says |
| TapeEdges.TurboShape | tape.c:655-715 | Edge by edge, a turbo block: pilot pulses without flags, the two sync pulses in their order, the pair of each bit, and the pause |
| TapeEdges.RomShape | tape.c:556-653 | The same for a ROM block in numbers: 8063 or 3223 pilot pulses of 2168, syncs of 667 and 735, bits of 855 and 1710 |
| TapeEdges.DurationAgrees | tape_block.c:636-662 | The dword that the closed form of a data block gives is the time of its edges exactly when the form is below 2^32 and counts the bits that are played of the last byte: it has 1 to 255, or none of them is missed, or no difference could be heard |
| TapeEdges.NoBitsInLastByte | tape_block.c:636-662 | A byte of which no bits are used counts nothing in the closed form, and is played for a turn of a size_t |
| TapeEdges.TooLongForADword | tape_block.c:636-662 | A byte of bits of 2^28 t-states lasts 2^32 t-states, and its closed form is 0 |
| TapeEdges.DataDuration | tape_block.c:636-662 | The sum of the edges of a pure data block is the closed form, plus exactly what the player makes of a last byte said to have no bits, or 256 and more |
| TapeEdges.TurboDuration | tape_block.c:594-623 | The same for a turbo block, with pilot, both syncs and pause |
| TapeEdges.ToneDuration | tape_block.c:772-818 | A tone lasts its count times its length, and a tone of no pulses a whole turn of its counter |
| TapeEdges.PulsesDuration | tape_block.c:625-634 | A list of pulses lasts the sum of its lengths |
| TapeEdges.SequenceDuration | tape_block.c:716-727 | A pulse sequence lasts the sum of lengths times repeats when every pulse repeats at least once, pulses of no length included |
| TapeEdges.SequenceLevels | tape.c:1107-1145 | The polarity of a pulse sequence: each edge takes the pulses up to the next with a length; it forces the signal low when an odd number of pulses has been taken in all and high when it is even, and leaves it alone exactly when it took an even number behind another edge |
| TapeEdges.SequenceAlternates | tape.c:1107-1145 | Without pulses of no length, every pulse is an edge, and edge k is low for even k and high for odd k |
| TapeEdges.EightBits | tape_block.c:532-546 | The bits shifted out of a byte are its binary digits, and eight of them leave nothing |
| TapeLengths.BitsSetNBits | tape_block.c:532-546 | The number of set bits among the first n that the player shifts out of a byte |
| TapeLengths.InitBitsSet | tape_block.c:548-558 | The table holds that number, for all eight bits, for every byte |
| TapeLengths.PureDataBlockLength | tape_block.c:636-662 | The loop's result is the closed form in a dword, which is the time that the block's edges take whenever the form fits the last byte |
| TapeLengths.TurboBlockLength | tape_block.c:594-623 | The same for a turbo block |
| TapeLengths.RomBlockLength | tape_block.c:570-592 | The same for a ROM block, whose last byte always holds eight bits |
| TapeLengths.ToneBlockLength | tape_block.c:772-788 | The product is the time that the tone takes, unless it has no pulses |
| TapeLengths.PulsesBlockLength | tape_block.c:625-634 | The loop's result is the time that the pulses take |
| TapeLengths.PulseSequenceBlockLength | tape_block.c:716-727 | The loop's result is the time that the sequence's edges take, if every pulse repeats at least once |
| TapePlayers.BitPlayer.NextBit | tape.c:621-653 | The next bit of the data is taken, and the player is left before the bit after it; the counter of the last byte wraps as a size_t does |
| TapePlayers.BitPlayer.TurboEdge | tape.c:655-716 | One call takes one edge off the front of the block's flat list, pilot, syncs, bit pairs and pause, and says when it is the last |
| TapePlayers.BitPlayer.TurboInit | tape_block.c:296-308 | A started turbo block has its whole flat list of edges before it |
| TapePlayers.BitPlayer.RomEdge | tape.c:557-619 | The same for a ROM block, whose pilot depends on its first byte |
| TapePlayers.BitPlayer.RomInit | tape_block.c:280-294 | A started ROM block has its whole list of edges before it |
| TapePlayers.BitPlayer.PureDataEdge | tape.c:784-825 | The same for a pure data block |
| TapePlayers.BitPlayer.PureDataInit | tape_block.c:310-323 | A started pure data block has its whole list of edges before it, the pause alone if it has no data |
| TapePlayers.CountPlayer.ToneEdge | tape.c:758-769 | One call takes one edge off the tone, whose counter wraps when it starts at 0 |
| TapePlayers.CountPlayer.PulsesEdge | tape.c:771-782 | One call takes one edge off the list of pulses |
| TapePlayers.SequencePlayer.PulseSequenceEdge | tape.c:1107-1145 | One call takes one edge off the sequence: pulses of no length are passed over, and only turn the level |
| GeneralisedData.SymbolShape | tape.c:963-985 | A symbol is heard as its pulses up to the first zero after the first pulse, or up to max_pulses |
| GeneralisedData.SymbolPulse | tape.c:963-985 | Each of those edges has the length of its pulse; the first one alone is flagged, as no edge or with a level, exactly as the kind of the symbol says |
| GeneralisedData.SymbolIndexIsValue | tape.c:946-961 | A symbol read bit by bit is the binary number that its bits are, most significant first |
| GeneralisedData.GeneralisedPlayer.GetBit | tape.c:930-944 | The next bit of the stream is taken, and a byte is fetched when the last one is used up |
| GeneralisedData.GeneralisedPlayer.GetSymbol | tape.c:946-961 | The symbol picked by the next bits of the stream is taken |
| GeneralisedData.GeneralisedPlayer.Init | tape_block.c:345-371 | A started block has its whole flat list before it: pilot symbols repeated as listed, data symbols, pause |
| GeneralisedData.GeneralisedPlayer.GeneralisedDataEdge | tape.c:987-1056 | One call takes one edge off the front of that list, and says when it is the last |
| GeneralisedData.GeneralisedBlockLength | tape_block.c:689-714 | The length found by playing the block is the sum of its flat list, in a dword |
| SampledData.ScanStops | tape.c:898-928 | A scan ends at the first sample of the level that it looks for, and all samples before it are of the other |
| SampledData.RunsSpellTheSamples | tape.c:898-928 | The runs that are scanned, alternating between the levels, spell the samples, and none of them is empty |
| SampledData.RawDataSpellsItsSamples | tape.c:898-928 | A raw data block plays one sample, and then the runs that spell its samples |
| SampledData.RawPolarity | tape.c:867-928 | Each run forces the signal low or high, in turn from the first sample on, and the last run as the one before it; the pause behind them forces nothing |
| SampledData.RawDataLastsLonger | tape_block.c:664-674 | So it lasts one sample longer than the length worked out for it, which is never right, modulo 2^32, unless samples take no time |
| SampledData.RawPlayer.NextBit | tape.c:898-928 | The loop over the samples scans one run, across bytes, to the next edge or past the end |
| SampledData.RawPlayer.RawDataEdge | tape.c:867-896 | One call takes one edge off the block's flat list, flagged with the level of the run after it |
| SampledData.RawPlayer.Init | tape_block.c:325-343 | A started raw data block has its whole list of edges before it, the pause alone if it has no data |
| SampledData.RlePlayer.RlePulseEdge | tape.c:1077-1105 | One call gives the pulse at the index, a byte or zero and a dword, and says whether it was the last |
| LevelledData.LevelsAlternate | tape.c:1191-1232 | The edges of a PZX data block alternate between the levels from its first one on, and keep their lengths and flags |
| LevelledData.EdgeOfBit | tape_block.c:379-393 | Pulse i of bit j has the length of its kind of bit, is high or low by the number of pulses before it and the first level, and is flagged short or long exactly when both kinds are matching pairs of different length |
| LevelledData.EdgeOfTail | tape.c:1213-1232 | Behind them comes the tail, with the next level, or as no edge if it has no length |
| LevelledData.LevelledPlayer.NextBit | tape.c:1147-1189 | The pulses of the next bit are put in front of those of the bits after it |
| LevelledData.LevelledPlayer.DataBlockEdge | tape.c:1191-1232 | One call takes one edge off the block's flat list: the pulses of every bit, the tail, and the level that each edge leaves |
| LevelledData.LevelledPlayer.Init | tape_block.c:373-411 | A started PZX data block has its whole list of edges before it; bits of two matching pulses are short or long |
| TapeRun.StepDescends | tape.c:338-529 | Short of the end of the tape, every step goes down an order made of the loop ahead, the blocks beyond the last loop start obeyed, the rounds left, the blocks left and the edges left |
| TapeRun.Play | tape.c:338-529 | From any position, on a tape with loop markers in any arrangement, playing comes to an edge that is the end of the tape |
| TapeRun.PlayRounds | tape.c:419-437 | From the start of a loop's body with n rounds to go, n bodies are heard before its end |
| TapeRun.UnrollingBeforePlainBlock | tape.c:419-437 | A tape of well bracketed loops, with a plain block last, sounds like the tape with each loop written out |
| TapeRun.UnrollingKeepsTheSound | tape.c:419-437 | Any tape of well bracketed loops sounds like the tape with them written out exactly when it does not end in a loop, or its unrolling ends silently |
| TapeRun.LoopAroundATone | tape.c:419-437 | A tape that is a loop around one tone has an edge more than the tone |
| TapeRun.WhichBlocksEndSilently | tape.c:498-526 | For every kind of block, when its last edge is silent, so that only its marks change at the end of the tape: data without a pause, and a pulse sequence with an even number of pulses of no length behind another one |
| TapeRun.SequenceEndsSilently | tape.c:1107-1145 | The case of the pulse sequence, whose zeros at the end turn the level and are then one edge |
| TapeFlags.WhatBlocksAsk | tape.c:338-470 | No edge of a block says of itself that it ends a block or the tape; a pause of no length alone stops the tape, and one kind of block alone stops it on 48K machines |
| TapeFlags.StepFlags | tape.c:470-529 | Wherever playing has got to, an edge is flagged as the end of a block exactly when it is the last of one, as the end of the tape exactly when that is the last block and no loop goes round, and as a stop exactly there and at pauses of no length |
| TapeFlags.TapeEndsOnce | tape.c:470-529 | A whole playing is flagged as the end of the tape at its last edge and nowhere else |
| TapeFlags.ForcedLevels | tape.c:406-449 | A pause forces the level it asks for exactly when it has a length, and a signal level block the opposite of its own |
| TapeDeck.TapePlayer.BlockInit | tape_block.c:211-278 | Each kind of block is started with its whole list of edges before it |
| TapeDeck.TapePlayer.GetNextEdge | tape.c:338-529 | Every call of the two-level machine, block players and all, is one step of the flat machine that StepDescends and the unrolling theorems are about |
| Csw.WriteBody | csw.c:228-290 | The loop writes the encoded resampling of the edges up to the first that stops the tape |
| Csw.TimeIsKept | csw.c:233-267 | At any point, scale times the samples written, the time carried and the time lost to overflow make up the time played |
| Csw.NoDrift | csw.c:233-267 | Samples written and time carried make up the time played exactly when, at every step, what the last edge left of a sample and the time since then fit a dword |
| Csw.OverflowsExactly | csw.c:233-267 | The carried dword overflows in a run exactly when that condition on the edges fails |
| Csw.ResampledAppend | csw.c:233-267 | Resampling some edges and then others is resampling all of them: what is written for the first is a prefix |
| Csw.NoDriftSoFar | csw.c:233-267 | Under that condition no time is lost up to any edge, and what is written for the edges up to it is what is written first |
| CswTapes.ShortBlock | csw.c:233-267 | Every kind of block whose lengths leave room for a sample in a dword has only such edges |
| CswTapes.TapesLoseNoTime | csw.c:228-290 | A tape of such blocks, loops and all, is resampled without loss of time, up to every one of its edges |
| CswTapes.ReadPulsesAreWithin | pzx_read.c:309-337 | Pulses from a .pzx file are such lengths, at every scale up to 2^31 |
| CswTapes.TwoLongPauses | csw.c:233-267 | Two pauses of 2^32 - 1 t-states lose a turn of the dword at 44100 samples a second |
| Csw.LessThanASample | csw.c:233-267 | After an edge, less than one sample is carried on |
| Csw.RlePlaysBack | tape.c:1077-1105 | Playing encoded pulses gives each of them times the scale |
| Csw.PulseLayout | csw.c:233-267 | A run of up to 255 samples is written as a byte, a longer one as a zero and four bytes, lowest first |
| Csw.CswRoundTrip | csw.c:228-290 | Whatever edges are resampled, playing the file gives exactly scale times each pulse that was written |
| Raster.RleWriter.WritePulse | tzx_write.c:639-666 | A pulse adds as many samples of the present level, across bytes, and turns the level |
| Raster.RleWriter.WriteRle | tzx_write.c:668-763 | The block of samples holds the alternating runs of all pulses, bit by bit, and says how many bits of its last byte are used; there is no block if there are no samples |
| Raster.PulsesComeBack | tzx_write.c:639-666 | The pulses can be read off their samples again, if each is at least one sample long |
| Raster.RecordingBecomesSamples | tzx_write.c:668-763 | The pulses of a recording, played and turned into samples, are all in the samples |
| Raster.HeldSamplesPlay | tape.c:898-928 | The samples that were written are those that the player takes exactly when the last bits of the last byte are its first ones |
| Raster.RecordingPlaysBack | tzx_write.c:668-763 | So a recording that is written as samples and played from them gives one sample, and then its own pulses, exactly in that case |
| Raster.NinthSampleIsLost | tzx_write.c:668-763 | A pulse of eight samples and one of a single sample do not come back |
| Warajevo.TokenIsRead | warajevo_read.c:290-428 | The code is prefix-free: a token is read back whatever follows it in the control bits and in the data bytes |
| Warajevo.CodeValues | warajevo_read.c:290-428 | The codes for sizes and for the upper parts of offsets are these binary numbers in so many bits |
| Warajevo.CopyRepeats | warajevo_read.c:269-288 | Every byte of a copy is the one that lies its offset less one before it |
| Warajevo.DecodeInvertsEncoding | warajevo_read.c:243-428 | Decoding the codes of a list of literals and non-overlapping copies of 2 to 265 bytes, offsets up to 5887, gives what they stand for, from any output on |
| Warajevo.DecompressionInvertsEncoding | warajevo_read.c:615-633 | The same from bytes: control bits packed and filled up, then the data bytes |
| Warajevo.Decompressor.AddBit | warajevo_read.c:290-428 | One control bit, through both automata: however many bits follow, what is decoded in all stays the same, errors included |
| Warajevo.Decompressor.ExecuteCopy | warajevo_read.c:269-288 | A completed copy does what its token stands for, or is the error that its token leads to |
| Warajevo.Decompressor.ExecCommand | warajevo_read.c:244-267 | The eight bits of a control byte, or as many as it takes to fill the output, leave what is decoded in all the same |
| Warajevo.DecompressBlock | warajevo_read.c:615-633 | Bit automata, byte pointer and output together compute the token decoder's result, with the bytes behind the signature as data |
| HashTable.Table.LookupNode | myglib/ghash.c:160-180 | The first node with the key in its bucket's chain, or the end of the chain |
| HashTable.Table.Lookup | myglib/ghash.c:182-191 | The value that the table, as a map, has for the key |
| HashTable.Table.Insert | myglib/ghash.c:223-248 | The map changes at the key and nowhere else, and the count goes up exactly when the key is new |
| HashTable.Table.ForeachRemove | myglib/ghash.c:266-310 | Every node is visited once, in order, restarts or not; those refused stay, the others are gone and counted |
| Drives.Drive.ReadSector | ide.c:410-462 | The destination gets the cached sector, or the one in the image, with every other byte 0xff on images of 256-byte sectors |
| Drives.Drive.WriteSector | ide.c:473-501 | The sector reads as what was written, up to the bytes that its image has no room for, and all other sectors as before |
| Drives.Drive.Commit | ide.c:267-295 | The cache is empty afterwards, and every sector reads as before unless the image is longer than 4 Gb |
| Drives.SectorsLieApart | ide.c:267-295 | Two sectors never overlap in an image of up to 4 Gb, wherever 32-bit addition puts them |
| Drives.SectorsAreInOrder | ide.c:410-462 | Sector n is the bytes behind the header and the n sectors before it, as far as 32 bits go |
| Drives.WritesAreFaithfulUpTo4Gb | ide.c:267-295 | Writing out any cache leaves every sector with what the cache held for it, or as it was, exactly when the sectors make at most 4 Gb: beyond, two of them share a place |
| SdCard.Reachable | mmc.c:713-762 | After a reset and any sequence of bytes, reads and resets: only a write command leads to a data block, an erase range lies on the card with start <= end, not idle means that command 8 was executed since, and the capacity is the same |
| SdCard.FlagSaysEightSeen | mmc.c:572-627 | In every run, the flag for command 8 is set exactly when a command 8 was executed, with no reset and no command 0 after it |
| SdCard.SendKeeps | mmc.c:713-762 | Every byte sent keeps the invariant: buffers, phases, open erase sequences only when not idle and with no command 55 pending |
| SdCard.ExecuteKeeps | mmc.c:629-660 | Every command keeps it too |
| SdCard.DataChangesOnlyWhenAsked | mmc.c:713-762 | Data on the card changes only at the last byte of a written block or of a complete erase sequence, and only on an initialised card |
| SdCard.LeavingIdle | mmc.c:532-570 | The card becomes initialised exactly at application command 41 behind command 55, with the high capacity bit, after command 8 |
| SdCard.ReadsDoNotMatter | mmc.c:232-240 | Bytes read in between make no difference to the state that the bytes sent lead to |
| SdCard.FrameExecutes | mmc.c:713-762 | Six bytes execute the command with its argument, highest byte first, whatever the last byte is |
| SdCard.BlockIsWritten | mmc.c:662-694 | Command 24, any bytes, the token, 512 bytes and a checksum update exactly the addressed sector, or none when it is not on the card |
| SdCard.AnswerIsReceived | mmc.c:232-240 | The answer comes byte by byte, and nothing but 0xff after it |
| SdCard.BlockIsRead | mmc.c:400-446 | Command 17 and 516 reads return the status, the token, the addressed sector and two zeros, and change no data |
| SdCard.RangeIsErased | mmc.c:283-398 | Commands 32, 33 and 38 zero the blocks from start to end, both included, and no others |
| SdCard.CardIsInitialised | mmc.c:532-627 | Commands 0, 8, 55 and 41 take a card from reset to initialised, with a clean status and its data as before |
| SdCard.CapacityIsTold | mmc.c:448-498 | The capacity in the card specific data is the number of sectors of the card |
| SdCard.AnswersAlways | mmc.c:572-627 | Over the bus, a card without an open erase sequence answers command 8 with its state, 0, 0, 1 and the check pattern, and 58 with c0 and three zeros, in any state, and commands 0, 24 and 55 with its state alone |
| SdCard.AnswersToIllegalCommands | mmc.c:532-627 | Until it is initialised it refuses commands for data and registers, and always those it does not know; command 41 behind 55 is answered with the state that it leads to |
| SdCard.AnswersWhenReady | mmc.c:448-530 | Once initialised it sends both registers byte by byte, and refuses sectors that are not on the card and an erase sequence that does not begin with command 32 |
| SdCard.AnswersInAnEraseSequence | mmc.c:275-398 | In an erase sequence an end is accepted exactly on the card and not before the start, and any command but 32, 33 and 38 is told that it broke the sequence off |
| MmcCard.AcceptedSizes | mmc.c:161-197 | An image is accepted exactly when its sectors, counted in 32 bits, are 512 bytes each and make 1 to 65375 units of 512 K |
| MmcCard.Mmc.Write | mmc.c:713-762 | One byte to the card's fields, buffers, drive and cache is one step of the protocol |
| MmcCard.Mmc.Read | mmc.c:232-240 | One byte from the answer buffer is one step of the protocol |
| MmcCard.Mmc.DoCommand | mmc.c:629-660 | Executing a command in the fields is executing it in the protocol, whose answers are those that SdCard.AnswersAlways and the like list |
| MmcCard.Mmc.DoCommandData | mmc.c:696-711 | A data block is written for a write command, and leaves the card alone for any other |
| MmcCard.Mmc.ZeroSectors | mmc.c:363-398 | The loop zeroes the sectors of the range, through the cache, and no others |
| MmcCard.Mmc.ReadSingleBlock | mmc.c:400-446 | The buffer holds the protocol's answer, from cache or image |
| MmcCard.Mmc.WriteSingleBlock | mmc.c:662-694 | Exactly one sector changes, as the bus sees it |
| MmcCard.Mmc.Commit | mmc.c:226-230 | A commit empties the cache, and the bus sees no difference, on images of up to 4 Gb |
| Ide.HeadBitsAreLost | ide.c:656-661 | In LBA mode the drive goes to the address of the standard exactly when no head bit is set, or the rest of the address is off the drive anyway |
| Ide.HeadBitIsLost | ide.c:656-661 | Asked for sector 0x1000005, a drive that has it goes to sector 5 |
| Ide.LbaIsBitSix | ide.c:654-656 | LBA mode is bit 6 of the head register |
| Ide.ChsAddress | ide.c:663-688 | With cylinder, head and sector in the registers a sector is found exactly when each is in its range, and its number has the sector as its lowest digit, from 0, then the head, then the cylinder |
| Ide.NextSector | ide.c:691-727 | The registers, counted up sector, head, cylinder or as one LBA number, address the next sector |
| Ide.NextLbaCounts | ide.c:694-708 | In LBA mode the registers count all 28 bits of the standard address, those in the head register too, and keep the other bits of it |
| Ide.SeekGoesOn | ide.c:647-728 | One seek of a run of sectors that lies on the drive leads to the seek of the rest of it |
| Ide.CapacityNeverGrows | ide.c:822-851 | No sequence of INITIALIZE DEVICE PARAMETERS commands makes a drive larger, whatever geometry its header gave it |
| Ide.ReshapedIsLargest | ide.c:822-851 | The new geometry has the heads and sectors asked for, and as many whole cylinders as make no more than the drive has, up to 65535 |
| Ide.Channel.InitDeviceParams | ide.c:822-851 | The geometry becomes the one that CapacityNeverGrows is about, or stays and is an error for a count of 0 |
| Ide.Channel.Seek | ide.c:647-728 | The addressed sector is found, and the registers go on to the next, exactly when it is on the drive |
| Ide.Channel.ReadData | ide.c:512-562 | One access gives the next item of the rest of the transfer, with the second register on a bus that has one; SectorReadsBack says which bytes these are |
| Ide.Channel.ReadSectorsOut | ide.c:784-805 | READ SECTOR delivers exactly as many sectors as the count says, 256 for 0, consecutive from the addressed one on, and the drive is ready again |
| Ide.Channel.WriteData | ide.c:593-644 | One access puts its byte into the buffer, and the last of a sector writes that sector and no other |
| Ide.Channel.WriteSectors | ide.c:808-819 | WRITE SECTOR takes exactly as many sectors as the count says, each with its share of the data, and changes no others |
| Ide.PutFills | ide.c:593-623 | The accesses put each byte where its bus has it: every other byte, all bytes, bytes swapped in pairs, or both data registers |
| Ide.SectorReadsBack | ide.c:512-562 | The accesses to a sector that was filled by accesses give what those gave, one by one, on each of the four buses, as far as the image keeps it |
| Ide.Channel.WriteAndRead | ide.c:784-819 | What WRITE SECTOR took, READ SECTOR at the same registers returns, access by access: all of it on images of 512 bytes a sector, every other byte, and ff between, on those of 256 |
| Rzx.InputBlock.StoreFrame | rzx.c:412-478 | The recording plays as before with one frame more, though a frame with the inputs of the last one is kept as a repeat |
| Rzx.InputBlock.Resize | rzx.c:388-410 | There is room for the new count, and the frames are as before |
| Rzx.FramesRoundTrip | rzx.c:1065-1117 | Frames that are written and read come back exactly when every one fits: instructions in 16 bits, and fewer than 0xffff inputs unless it repeats |
| Rzx.ReadFramesPlayTheSame | rzx.c:1065-1117 | A recording that was written and read plays as before |
| Rzx.WriteFrames | rzx.c:1492-1513 | The loop writes the frames in the form that FramesRoundTrip is about |
| Rzx.FrameLayout | rzx.c:1492-1513 | The bytes of a frame: instructions, count and inputs in order, or ff ff for a repeat |
| Rzx.ReadFrames | rzx.c:1065-1117 | The loop reads what the bytes stand for, or is an error where they end too soon |
| RzxRecordings.Player.StartPlayback | rzx.c:480-527 | The player is at the first frame of the chosen input block, with what playing from there gives before it, and the snapshot right in front of it; an error exactly when there is no such block |
| RzxRecordings.Player.Playback | rzx.c:592-607 | The next input of the data frame, or an error exactly when its count is used up; a repeat without inputs in front of it is read outside its memory |
| RzxRecordings.Player.PlaybackFrame | rzx.c:529-590 | The current frame is left behind exactly when as many inputs were read as the data frame says, across blocks; the snapshot in between is handed over, the one that WhichSnapshot tells |
| RzxRecordings.WhichSnapshot | rzx.c:545-575 | Between two input blocks it is the last snapshot that is handed over, and none exactly when there is none |
| RzxRecordings.WhichInput | rzx.c:480-503 | The block that playback is started at has exactly as many input blocks before it as its number says; there is no such block exactly when there are not that many |
| RzxRecordings.Player.Replay | rzx.c:529-607 | A whole playback returns all frames from the chosen block on, inputs and instruction counts, repeats resolved, or the error that playing runs into: a first frame whose count is not that of its inputs, or a block without frames |
| RzxRecordings.PlayingIsStream | rzx.c:529-590 | Without empty blocks, that is what the blocks stand for, one after the other |
| RzxRecordings.RecordAndReplay | rzx.c:412-607 | Recording frames, writing them, reading them and replaying them gives the recording exactly when it is not empty, and instructions fit in 16 bits and inputs number fewer than 0xffff |
| RzxRecordings.MergeKeepsPlayback | rzx.c:1683-1703 | Merging two input blocks keeps what is played exactly when one of them is empty, or the first does not play at all, or the second starts with its own inputs, or with a repeat of no count behind no inputs |
| RzxRecordings.MergeFromFile | rzx.c:1683-1703 | For a block from a file behind one that plays something, exactly when it is empty or starts with its own inputs |
| RzxRecordings.RepeatBehindABlock | rzx.c:1065-1117 | The bytes 01 00 ff ff, a repeat, are an error as a block of their own, and play when merged behind a frame |
| RzxRecordings.MergeKeepsSoundness | rzx.c:1683-1703 | Recording can go on in a merged block exactly when the second block was not empty |
| RzxRecordings.EmptyBehindABlock | rzx.c:1683-1703 | With an empty second block, the next frame is compared with one that is not there |
| RzxRecordings.FreshMeansPlayable | rzx.c:529-590 | A recording from a file can be played exactly when each of its blocks starts with its own inputs |
| RzxRecordings.FinalisingKeeps | rzx.c:1705-1764 | Finalising leaves the first snapshot only, in its place, the other blocks in their order, and no two input blocks next to each other, each with the t-states of its first part; what is played stays the same if each input block starts with its own inputs |
| RzxRecordings.Recording.Finalise | rzx.c:1705-1764 | The two loops over the list do that, and report an error exactly when nothing changed |
| Tzx.NumberIsRead | tzx_read.c:1142-1179 | A number comes back from its bytes exactly when it fits in them |
| Tzx.TextIsRead | tzx_write.c:932-943 | A text comes back exactly when it is shorter than 256 bytes and has no carriage return |
| Tzx.TurboBack | tzx_read.c:293-361 | A turbo block comes back exactly when its fields fit, its pause in t-states is that of its milliseconds, and its last byte holds 1 to 8 bits, or none if there is no data |
| Tzx.PureDataBack | tzx_read.c:436-490 | A pure data block comes back exactly when its fields fit, its pause in t-states is that of its milliseconds, and its last byte holds 1 to 8 bits, or none if there is at most one byte |
| Tzx.RawDataBack | tzx_read.c:492-539 | The same for raw data, where a last byte without bits needs that there is no data |
| Tzx.SelectBack | tzx_write.c:517-538 | A selection comes back exactly when its entries fit and at least three bytes follow, since its length is written three too large, or the length is cut off |
| Tzx.SelectionIsLast | tzx_write.c:517-538 | A tape that ends with a selection is an error when it is read again |
| Tzx.MessageBack | tzx_write.c:568-574 | A message comes back exactly when its time is 0 and its text fits: milliseconds are written and read as seconds |
| Tzx.MessageOfASecond | tzx_write.c:568-574 | A message of one second comes back as one of 232 seconds |
| Tzx.PauseIsRounded | utilities.c:44-51 | A pause of 5000 t-states comes back as one of 3500 |
| Tzx.ArchiveBack | tzx_read.c:958-1026 | Archive information comes back exactly when there are fewer than 256 entries and all of them fit |
| Tzx.HardwareBack | tzx_read.c:1028-1077 | Hardware information comes back exactly when there are fewer than 256 entries of three bytes |
| Tzx.JumpBack | tzx_read.c:730-754 | A jump comes back exactly when it fits in a signed word |
| Tzx.BlockRoundTrip | tzx_read.c:147-253 | A block of any of twenty kinds is read as it was written, with what follows left over, exactly when it is printable; an unprintable one never comes back |
| Tzx.BitsAreRead | tzx_read.c:344-351 | More than eight bits in the last byte are read as eight, and none as the eight of the byte before it, unless there is no data, or a single byte of pure data |
| Tzx.RomLayout | tzx_write.c:228-239 | Where the fields of a ROM block are in the file, byte by byte |
| Tzx.TurboLayout | tzx_write.c:241-274 | The same of a turbo block, all ten fields |
| Tzx.PureDataLayout | tzx_write.c:297-313 | The same of pure data |
| Tzx.RawDataLayout | tzx_write.c:315-333 | The same of raw data |
| Tzx.CustomLayout | tzx_write.c:619-637 | The same of custom information |
| Tzx.PulsesLayout | tzx_write.c:283-295 | The same of a list of pulses |
| Tzx.FieldLayouts | tzx_write.c:469-559 | The same of tones, pauses, jumps, loops, stops and levels |
| Tzx.TextLayout | tzx_write.c:932-943 | A text is a byte of length and its bytes, with carriage returns for line feeds |
| Tzx.TextLayouts | tzx_write.c:490-575 | Groups, comments and messages are their identifier and their text |
| Tzx.SelectLayout | tzx_write.c:517-538 | A selection in the file, with the length that is three too large |
| Tzx.ArchiveLayout | tzx_write.c:576-599 | An entry of archive information in the file |
| Tzx.HardwareLayout | tzx_write.c:601-617 | An entry of hardware information in the file |
| Tzx.TapeLayout | tzx_write.c:102-115 | A file starts with its name, a byte 1a and the version 1.20 |
| Tzx.BlocksRoundTrip | tzx_read.c:142-255 | A list of blocks comes back exactly when each is printable in front of the rest |
| Tzx.TapeRoundTrip | tzx_read.c:113-258 | A tape is read as it was written exactly when all of its blocks are printable |
| Tzx.TapesJoin | tzx_read.c:147-253 | Two printed tapes put one behind the other are read as one tape of both: the start of the second is skipped as a concatenation block |
| TzxFile.Writer.WriteBytes | tzx_write.c:918-930 | The loop writes the length in so many bytes, the lowest first |
| TzxFile.Writer.WriteString | tzx_write.c:932-943 | The loop writes the text with its length and its line ends translated |
| TzxFile.Writer.WriteTape | tzx_write.c:102-226 | The bytes of the tape are those that TapeRoundTrip is about |
| TzxFile.Reader.TakeData | tzx_read.c:1142-1179 | The length is added up byte by byte, and that many bytes are taken, or there is an error |
| TzxFile.Reader.LineFeeds | tzx_read.c:1181-1199 | The translation in place ends at the first zero |
| TzxFile.Reader.ReadTape | tzx_read.c:113-258 | The reading loops return the tape that TapeRoundTrip is about, or its first error |
| Pzx.PulsesReadAreInField | pzx_read.c:309-337 | Whatever the bytes are, pulses read from them repeat 1 to 0x7fff times and are shorter than 2^31, so the player comes to an end |
| Pzx.PulsesRoundTrip | pzx_read.c:309-337 | Pulses in the form of the format are read as they were, one that would be taken for a count included |
| Pzx.PulseLayout | pzx_read.c:309-337 | The bytes that are read as a pulse: a count with its top bit set, if there is one, and one word of length or two |
| Pzx.ReadPulsBlock | pzx_read.c:339-398 | The loop returns all pulses of the block, at least one, or is an error |
| Pzx.CompiledTimes | tzx_write.c:780-823 | The tones and lists that a pulse sequence becomes last, pulse by pulse, as long as the sequence |
| Pzx.CompiledPlaysTheSame | tzx_write.c:780-823 | A pulse sequence turned into blocks lasts pulse by pulse as long, and edge by edge exactly when none but its last pulse is of no length; the blocks come back from the file exactly when lengths and repeats fit in words and no more than 255 pulses in a row do not repeat |
| Pzx.TooManyPulsesInARow | tzx_write.c:780-823 | 256 pulses that do not repeat do not come back |
| Pzx.PulseOfNoLength | tzx_write.c:780-823 | A pulse of no length between two others is an edge more in the blocks |
| Pzx.WritePulseSequence | tzx_write.c:780-823 | The loop with its queue writes those blocks |
| Tap.TapeRoundTrip | tap.c:49-131 | A tape written to a file of any of the four kinds is read as it was exactly when it consists of ROM blocks with a pause of a second, and the file can hold all of them |
| Tap.DataRoundTrip | tap.c:49-131 | The data of its blocks is read as it was exactly when the lengths fit and, where the parity is left out, it is right |
| Tap.StoredComesBack | tap.c:270-306 | The parity that is changed on the way out is restored on the way in; one that is left out comes back exactly when it was right |
| Tap.XorIsGroup | tap.c:108-119 | What the parity is made with: commutative, associative, 0 leaves a byte alone, and each byte undoes itself |
| Tap.ParityCounts | tap.c:112-118 | A digit of the parity is set exactly when an odd number of the bytes have it |
| Tap.ParityCompletes | tap.c:112-118 | The byte that is put behind a .sta block is the one that makes the parity of all bytes 0, and no other does |
| Tap.BlockInFourFiles | tap.c:270-306 | The same three bytes in a .tap, .ltp, .spc and .sta file, byte by byte |
| Tap.FlagOfZero | tap.c:63-128 | The .spc file 00 00 00 p is a ROM block of the bytes 0 and p with a second's pause |
| Tap.WhatIsWritten | tap.c:133-216 | Exactly the data of ROM, turbo and pure data blocks is written, in their order |
| Tap.ReadOne | tap.c:63-128 | The parity byte is patched in place in the block's data |
| Tap.ReadTape | tap.c:49-131 | The loop returns the tape that TapeRoundTrip is about, or its first error |
| Tap.WriteTape | tap.c:133-216 | The loop writes the blocks that have data and skips the others, or stops at the first that cannot be written |
| Microdrive.AddByte | microdrive.c:185-199 | The addition with its two carries is addition modulo 255 |
| Microdrive.Sum | microdrive.c:225-228 | A checksum is the sum of its bytes modulo 255, and so never 255 |
| Microdrive.ChangeIsNoticed | microdrive.c:185-199 | A changed byte changes the checksum exactly unless it changes between 0 and 255 |
| Microdrive.Checksum | microdrive.c:177-250 | Each result is returned exactly in its case: bad block, header, record header, data, or all well |

## Left out

- JUMP blocks while playing: the source moves the position of the tape rather than the iterator that it was given (tape.c:1058-1073), so no statement about one iterator holds.
- The closed-form lengths of compressed recordings and PZX data blocks (tape_block.c:676-687, 729-770): they add up bytes, and averages of pulses, instead of what is played.
- LevelledData.LevelledPlayer.Init: a PZX data block without a first level, which keeps the level that an earlier block left in the union; the readers do not make one.
- SampledData.RawPlayer.Init: raw data whose last byte is said to hold no bits, or more than eight, where the source shifts by more than it may; data of 2^28 bytes and more, whose runs an int does not count.
- TapeDeck.TapePlayer.GetNextEdge: an empty tape, whose iterator is null, is not a tape of the model, nor is one with a negative loop count; block states are objects side by side where the source has a union; the ROM, turbo and pure data versions of next_bit, which differ in names only, are one method.
- Csw.WriteBody: the header, the sample rate search and the compression of the body.
- Z80Pages.PagesRoundTrip: the pages of Interface 1, +D and the like, the SLT extension (whose writer and reader disagree about a byte), and the headers of a snapshot.
- Z80Pages.ReadV1Block: uncompressed version 1 blocks, which are copied.
- Warajevo.DecompressBlock: the block headers and the joining of adjacent raw blocks. Overlapping copies, and copies past the end of the output, pass the check of the source; they are the error Undefined here.
- MmcCard.Mmc.Commit: on images longer than 4 Gb the bus can see a difference after a commit; Drives.WritesAreFaithfulUpTo4Gb says why.
- Drives.Drive.Commit: seeks and writes that fail.
- Ide.Channel.ReadSectorsOut: transfers that run off the drive, after which the source reads outside its buffer, or past sector 2^24 in LBA mode, where the address starts again at 0; the registers are not written during a transfer. Master and slave selection, IDENTIFY DEVICE and the status register beyond its error flag are not modelled.
- Ide.Channel.WriteSectors: the same.
- Ide.CapacityNeverGrows: drives of 2^31 sectors and more, whose number overflows an int.
- HashTable.Table.ForeachRemove: the list of free nodes, and tables with string keys.
- Rzx.WriteFrames: the block headers, compression, signatures and embedded snapshots.
- RzxRecordings.RecordAndReplay: the header of the block between writing and reading, which holds the number of frames.
- RzxRecordings.Recording.Finalise: a recording that is still going on into a block that is merged away.
- Tzx.BlockRoundTrip: generalised data blocks; blocks of other formats that are compiled to .tzx blocks, apart from pulse sequences (Pzx) and recordings (Raster).
- Raster.RleWriter.WriteRle: the growth of the output buffer.
- Pzx.ReadPulsBlock: the other blocks of a .pzx file.
- Tap.WriteTape: the warnings about blocks that are skipped or converted, and generalised data, compressed recordings and PZX blocks, which are skipped too.
- Microdrive.Checksum: getting and setting the parts of a block.
- Reading and writing of the other snapshot formats (szx.c, sna.c, sp.c, snp.c, zxs.c, plusd.c, dck.c), file type guessing, locks and allocation: field copies and foreign calls only.
