# Schism Tracker module ingestion and editor state, in Dafny

This project models the module-loading path of Schism Tracker and a set of the
tracker's in-place editing routines, and proves what each of them promises.

- **Byte source** (`schism/slurp.c`). A cursor over an owned byte buffer
  (`Slurp.Cursor`): seek, tell, read, peek, getc and eof, with zero-filled short
  reads and the invariant `0 <= pos <= length`. The file-opening step keeps the
  bytes as they are, or replaces them with their MMCMP ("ziRCONia") unpacking.
- **MMCMP unpacker** (`mmcmp_bits.dfy`, `mmcmp.dfy`, `mmcmp_unpack.dfy`).
  - The LSB-first bit reader `get_bits` is the class `MmcmpBits.BitReader`.
  - The header gate, the block table, raw blocks and the 8-bit and 16-bit
    adaptive-width decoders are specified as functions in `Mmcmp`. These
    cover width changes, escapes, the translation table, the zig-zag fold
    and delta/XOR.
  - `MmcmpUnpack` holds the loops of `mmcmp_unpack` over a zeroed output
    array, each proved to compute those functions.
  - Every out-of-bounds access the C code would make ends the unpacking
    with an explicit `OutOfBounds` result.
- **Scream Tracker 3 loader** (`fmt/s3m.c`).
  - `S3mRules`: the small field rules. These are global volume, speed,
    tempo, mixing volume, channel settings and pannings, sample pointers,
    the note, volume-column and special-effect rules, and the tracker
    identifier.
  - `S3mFormat`: the whole load as a function of the file's bytes. It reads
    the header, channels, orders, parapointers, pannings, sample headers,
    sample data requests and the packed pattern stream.
  - `S3mLoad`: the loader itself, as methods that advance a `Slurp.Cursor`
    and fill a `SongModel.Song`, each proved to agree with `S3mFormat`.
- **Load registry and song resets** (`schism/audio_loadsave.c`), in
  `LoadSave`:
  - the probe loop of `song_create_load`;
  - `song_new`'s resets under its keep flags;
  - name repair and message newline conversion;
  - sample copy and clear;
  - the mark-and-sweep of an instrument's samples;
  - the instrument loader's slot allocator.
- **String utilities** (`schism/util.c`), in `Util`: base names, the three
  trims over NUL-terminated buffers, `readhex` and `str_unescape`.
- **Instrument page** (`schism/page_instruments.c`), in `InstrumentPage`:
  - note-map transpose, insert and delete;
  - the draw-time repair of the note map;
  - envelope node insertion;
  - the ten-slot envelope clipboard with its flag remapping;
  - the list and table scroll rules;
  - the octave edit.
- **Pattern editor** (`schism/page_patedit.c`).
  - `PatternEditor`: the configuration encoding of the track view scheme and
    the multichannel flags, and the visible-area computation.
  - `PatternUndo`: rectangle snapshots, the ten-slot undo ring, the
    row/pattern clamps and the play-from-mark order search.
- **Log** (`schism/log.c`), in `LogBuffer`: the 1000-line buffer that drops
  its oldest line, and the underline line.
- **MIDI core** (`schism/midi-core.c`), in `Midi`:
  - the decoding of incoming messages into events;
  - the queue sizing and the clamped append;
  - the sparse port table.

`SongModel` (`song.dfy`) holds the song, sample, instrument and envelope
entities and `Bytes` (`bytes.dfy`) the byte, little-endian, C-division and
clamping helpers they share.

## Behaviour worth knowing

Two behaviours of the code are easy to miss, and the model keeps both as the
code has them:

- **Note pitches are not normalised.** Notes of the song run from 1 to 120,
  yet `fmt/s3m.c:348` stores `hi * 12 + lo + 13` unclamped for every note
  byte other than 254 and 255. The byte 0xFD gives 206
  (`S3mRules.NoteCodeMaximum`).
- **A matched signature does not always commit the registry.** A
  `fmt_*_load_song` may return LOAD_FILE_ERROR while `errno` is 0.
  `song_create_load` passes `errno` on as its error
  (`schism/audio_loadsave.c:231-232`), so this error reads as a decline: the
  next loader is tried, and if none is left a song is returned
  (`LoadSave.CreateResultCases`).

In five places the code does something its authors evidently did not mean;
each is a row under "## Findings". There a separate as-written member models
the code, and the rows under "## Model" for the loader, the scheme decoding,
the underline and the port walk describe the corrected behaviour:

- the S3M signature check at `fmt/s3m.c:89-92` accepts a file shorter than
  44 bytes, because the failed seek leaves the tag to be read at position 0
  (`S3mFormat.ShortFileTag`);
- the S3M sample-count check at `fmt/s3m.c:110-111` admits
  nsmp = MAX_SAMPLES (`S3mFormat.SampleCountOverrun`);
- the scheme decoding at `schism/page_patedit.c:405-413` keeps a partly
  decoded buffer on a corrupt string (`PatternEditor.CorruptSchemeKept`);
- `log_underline(0)` writes below its buffer (`LogBuffer.UnderlineFilledAsWritten`);
- `midi_port_foreach` takes an empty slot 0 from a NULL cursor
  (`Midi.PortTable.ForeachAsWritten`).

## Model

| member | source | states |
|---|---|---|
| Slurp.Available | schism/slurp.c:576-580 | the bytes a peek or read takes are min(count, length − pos): never more than asked, never past the end, and short only at the end |
| Slurp.PeekBytes | schism/slurp.c:574-586 | a peek yields exactly `count` bytes: the buffer's bytes from `pos` while they last, zeros after |
| Slurp.SeekPos | schism/slurp.c:543-560 | the position after a seek never leaves [0, length] |
| Slurp.GetcAt | schism/slurp.c:588-591 | getc yields a byte 0..255 or EOF (−1), and EOF exactly at the end |
| Slurp.AfterRead | schism/slurp.c:567-572 | a read leaves the position at min(pos + count, length) |
| Slurp.ReadsConcatenate | schism/slurp.c:567-586 | two consecutive reads deliver the same bytes as one read of the combined length, zero fill included |
| Slurp.Cursor.constructor | schism/slurp.c:502-528 | a cursor starts at position 0 over the owned bytes |
| Slurp.Cursor.Seek | schism/slurp.c:543-560 | the target is offset from 0, pos or length (any other whence acts as SET); inside [0, length] the cursor moves there and 0 is returned, otherwise −1 and the cursor stays |
| Slurp.Cursor.Rewind | schism/slurp.c:543-560 | a seek to offset 0 always succeeds and leaves the cursor at 0 |
| Slurp.Cursor.Tell | schism/slurp.c:562-565 | the position reported never lies beyond the end |
| Slurp.Cursor.Peek | schism/slurp.c:574-586 | all `count` bytes are filled: the first n = min(count, length − pos) from the buffer at pos, the rest zero; n is returned and the cursor does not move |
| Slurp.Cursor.Read | schism/slurp.c:567-572 | a peek that then advances the cursor by exactly the number of bytes taken, keeping 0 ≤ pos ≤ length |
| Slurp.Cursor.Getc | schism/slurp.c:588-591 | before the end: the byte at pos and one step forward; at the end: EOF and no move |
| Slurp.Cursor.Eof | schism/slurp.c:593-596 | end of file holds exactly when no byte is left |
| MmcmpBits.TakeBitsFacts | schism/slurp.c:110-122 | get_bits keeps the buffer to its valid bits (at most 31), returns a value below 2^n, never moves the source back, and get_bits(0) returns 0 and consumes nothing |
| MmcmpBits.RefillFacts | schism/slurp.c:114-117 | the refill loop leaves at least 24 valid bits, feeding zero bytes once the source reaches `end` |
| MmcmpBits.RefillPreservesStream | schism/slurp.c:114-117 | refilling never changes the bits the reader will still deliver (buffer, then unread bytes, then zeros) |
| MmcmpBits.TakeBitsFromStream | schism/slurp.c:110-122 | when the packed region lies inside the file, get_bits(n) never fails, returns the low n bits of the stream, LSB first, and leaves the stream shifted down by n |
| MmcmpBits.TakeBitsMoves | schism/slurp.c:110-122 | a nonzero value taken means the reader moved on (read a byte or shrank its buffer), which bounds the number of width changes |
| MmcmpBits.Command | schism/slurp.c:97-104 | the command threshold of each width w is a code of w + 1 bits, at least 1 |
| MmcmpBits.Fetch | schism/slurp.c:99-106 | a command reads at most 4 further bits |
| MmcmpBits.CommandSpan | schism/slurp.c:97-106 | the commands of width w, each with its fetch bits, name exactly 8 (bytes) or 16 (words) widths |
| MmcmpBits.NewWidthInRange | schism/slurp.c:217-220 | the width a command names is below 8 or 16, so the masks `& 0x07` / `& 0x0F` never change it (also lines 274-277) |
| MmcmpBits.DecodeEscapeFacts | schism/slurp.c:222-228 | an escape yields a symbol 0xF8 + e / 0xFFF0 + e below 0x100 / 0x10000, or the end of the block; never a width change (also lines 279-285) |
| MmcmpBits.DecodeCommandFacts | schism/slurp.c:215-229 | a command either switches to a different width in range or takes the escape path (also lines 272-286) |
| MmcmpBits.DecodeStepFacts | schism/slurp.c:211-232 | one iteration keeps the reader well formed, yields symbols below 0x100 / 0x10000, and a width change moves to a different width in range while advancing the reader (also lines 268-289) |
| MmcmpBits.CommandDecodes | schism/slurp.c:213-229 | decoding the command that names w2 leaves the rest of the stream, yields NewWidth(w2) when w2 differs from the current width, and takes the escape otherwise (also lines 270-286) |
| MmcmpBits.DecodeEncodedWidth | schism/slurp.c:213-220 | round trip: the encoded switch to another width decodes to exactly that width change and leaves the rest of the stream (also lines 270-277) |
| MmcmpBits.EscapeDecodes | schism/slurp.c:222-228 | escape field e decodes to 0xF8 + e / 0xFFF0 + e; the all-ones field followed by a 0 bit decodes to 0xFF / 0xFFFF (also lines 279-285) |
| MmcmpBits.DecodeEncodedSymbol | schism/slurp.c:211-232 | round trip: every symbol width w can emit (literals below the command, escaped symbols from 0xF8 / 0xFFF0 up) decodes back from its code (also lines 268-289) |
| MmcmpBits.DecodeEncodedLiteral | schism/slurp.c:230-232 | a code below the command threshold is that literal (also lines 287-289) |
| MmcmpBits.DecodeEncodedEscape | schism/slurp.c:221-228 | a symbol at or above the threshold travels through the escape and comes back unchanged (also lines 278-285) |
| MmcmpBits.DecodeEncodedEnd | schism/slurp.c:222-224 | the all-ones escape field followed by a 1 bit ends the block (also lines 279-281) |
| MmcmpBits.BitReader.constructor | schism/slurp.c:204-209 | a reader starts with no buffered bits at the block's data, bounded by `end` (also lines 261-266) |
| MmcmpBits.BitReader.GetBits | schism/slurp.c:110-122 | get_bits as the C code runs it (refill loop, mask, shift) computes exactly TakeBits, and fails only where the refill would read a byte below `end` that lies outside the file |
| MmcmpBits.NextStep | schism/slurp.c:211-232 | one iteration of the decoding loop, with up to four get_bits calls, gives DecodeStep's outcome and reader state (also lines 268-289) |
| MmcmpBits.CommandStep | schism/slurp.c:215-229 | the command part of an iteration gives DecodeCommand's outcome (also lines 272-286) |
| MmcmpBits.EscapeStep | schism/slurp.c:222-228 | the escape part of an iteration gives DecodeEscape's outcome (also lines 279-285) |
| Mmcmp.AllocSize | schism/slurp.c:158 | `(filesize + 31) & ~15` is a multiple of 16 with at least 16 bytes to spare past filesize |
| Mmcmp.Read32 | schism/slurp.c:164 | a 32-bit table entry is read only when it lies inside the file, and is below 2^32 |
| Mmcmp.SubBlock | schism/slurp.c:186-187 | a sub-block record is read exactly when it lies inside the file (also lines 248-249, 301-302) |
| Mmcmp.Splice | schism/slurp.c:192 | a memcpy into the output changes exactly the target range, to the copied bytes |
| Mmcmp.CopyRunNext | schism/slurp.c:185-195 | the raw copy loop ends at the end of the table; a record with unpk_pos > filesize or (32-bit) unpk_pos + unpk_size > filesize ends the block and keeps the output so far; a copy reading past the file is an out-of-bounds access |
| Mmcmp.CopyRunAdvance | schism/slurp.c:188-194 | a record that fits is copied verbatim to unpk_pos and the source moves past it |
| Mmcmp.WordBytes | schism/slurp.c:243 | a 16-bit word is stored as two little-endian bytes |
| Mmcmp.EndCheckFacts | schism/slurp.c:245-250 | after a write or a width change the machine is strictly further along: the next record, less room, fewer unread bytes or a smaller buffer (also lines 298-303) |
| Mmcmp.BlockStepFacts | schism/slurp.c:211-251 | each loop iteration keeps the output length, halts without writing at the end code, and otherwise strictly decreases the loop measure (so the decoding loop terminates) (also lines 268-304) |
| Mmcmp.RunNext | schism/slurp.c:211-251 | the decoding loop is the repetition of BlockStep: a fault ends it as out-of-bounds, the end code ends it with the output so far (also lines 268-304) |
| Mmcmp.EntryAt | schism/slurp.c:164-182 | a block entry whose header ends at or past the end of the file stops the block loop |
| Mmcmp.BlockRunEnd | schism/slurp.c:163 | after the last block the output is final |
| Mmcmp.BlockRunNext | schism/slurp.c:163-306 | the block loop runs the blocks in table order, stopping at the first block whose header check fails |
| Mmcmp.UnpackGate | schism/slurp.c:135-156 | the file is left alone exactly when the header gate fails (length < 256, wrong magic, hdrsize < 14, no blocks, filesize outside [16, 0x8000000], block table outside the file); an unpacked file is exactly filesize bytes (also lines 307-309) |
| Mmcmp.UnfoldFold | schism/slurp.c:234-236 | the zig-zag sign fold is a bijection from [−32768, 32767] onto 16-bit codes |
| Mmcmp.FoldUnfold | schism/slurp.c:234-236 | folding the unfolded code gives the code back |
| Mmcmp.FlipSignInvolution | schism/slurp.c:241 | `^ 0x8000` is an involution that adds 0x8000 modulo 2^16 |
| Mmcmp.Delta16 | schism/slurp.c:237-239 | the signed 16-bit step between two words lies in [−32768, 32767] |
| Mmcmp.DeltaRoundTrip | schism/slurp.c:233-243 | in MM_DELTA mode, coding the folded difference from the previous word makes the decoder write the target word |
| Mmcmp.Delta16Congruent | schism/slurp.c:237-239 | the signed step agrees with target − previous modulo 2^16 |
| Mmcmp.FlippedRoundTrip | schism/slurp.c:233-243 | in absolute mode without MM_ABS16, coding the folded sign-flipped word makes the decoder write the target word |
| Mmcmp.TableLiteral | schism/slurp.c:290-296 | an 8-bit literal writes table[sym], plus oldval modulo 256 in MM_DELTA mode, which also updates oldval |
| MmcmpUnpack.CopyBlock | schism/slurp.c:185-195 | the raw copy loop over an output array ends with exactly the output CopyRun describes, or reports the out-of-bounds access |
| MmcmpUnpack.CopyRecord | schism/slurp.c:186-194 | one record ends the block or is copied, moving the source past it |
| MmcmpUnpack.Store | schism/slurp.c:192 | a store changes exactly the target range of the output array (also lines 243, 296) |
| MmcmpUnpack.DecodeOnce | schism/slurp.c:211-251 | one loop iteration on the output array and bit reader does exactly what BlockStep describes (also lines 268-304) |
| MmcmpUnpack.WriteLiteral | schism/slurp.c:233-250 | the output write of a literal and the end-of-record check do exactly what Write describes (also lines 290-303) |
| MmcmpUnpack.CheckEnd | schism/slurp.c:245-250 | a full sub-block moves to the next record, faulting when that record lies outside the file (also lines 298-303) |
| MmcmpUnpack.DecodeBlock | schism/slurp.c:211-251 | the decoding loop over the output array ends with exactly the output Run describes, or reports the out-of-bounds access (also lines 268-304) |
| MmcmpUnpack.ReadEntry | schism/slurp.c:164-182 | the block entry is read as EntryAt describes |
| MmcmpUnpack.RunOneBlock | schism/slurp.c:183-305 | one block is copied or decoded exactly as RunBlock describes |
| MmcmpUnpack.UnpackBlock | schism/slurp.c:163-306 | one iteration of the block loop stops, faults or moves to the next block as BlockRun describes |
| MmcmpUnpack.Unpack | schism/slurp.c:125-310 | mmcmp_unpack computes UnpackSpec: NotPacked exactly when the gate fails, otherwise the first filesize bytes of a zeroed (filesize + 31) & ~15 allocation after the block loop |
| MmcmpUnpack.Open | schism/slurp.c:502-528 | slurp's unpack-or-keep step: a cursor at 0 over the unpacked bytes when the file is MMCMP-packed, over the file's own bytes when the gate declines |
| SongModel.BlankPattern | fmt/s3m.c:323 | a freshly allocated pattern of `rows` rows is rows × 64 blank cells |
| S3mRules.GlobalVolume | fmt/s3m.c:124 | the stored global volume byte is doubled: an even value up to 510 that halves back to the byte |
| S3mRules.Speed | fmt/s3m.c:127 | a speed byte of 0 becomes 6; any other is kept, so the speed is never 0 |
| S3mRules.Tempo | fmt/s3m.c:128-132 | tempos up to 32 become 125 and higher ones are kept (33 stays 33), so the tempo is always above 32 |
| S3mRules.MixingVolume | fmt/s3m.c:133-138 | with bit 7 set it is cleared and the song is stereo; with bit 7 clear SONG_NOSTEREO is set; the volume is the byte mod 128 |
| S3mRules.AdlibCompensation | fmt/s3m.c:196-198 | only files with AdLib channels from tracker versions 0x4000 ..< 0x4D33 get mv × 2274 / 4096, which never raises the volume; all others keep it |
| S3mRules.DefaultPanning | fmt/s3m.c:172-186 | a channel type's panning is 14 (L1-L8), 50 (R1-R8) or 32 (AdLib or disabled) |
| S3mRules.ChannelSetting | fmt/s3m.c:166-187 | a stored channel gets volume 64 and its type's panning, and is muted exactly when it was, bit 7 is set, or the type is disabled or broken |
| S3mRules.StoredPanning | fmt/s3m.c:211-213 | with bit 5 set, a stored panning (c & 15) × 4 + 2, in 2 .. 62, replaces the channel's, except on AdLib channels of files from version 0x1320 and older |
| S3mRules.PcmPointer | fmt/s3m.c:234 | the PCM parapointer is b[1] + (b[2] << 8) + (b[0] << 16): low word from b[1], b[2], high byte from b[0], below 2^24 |
| S3mRules.FormatOf | fmt/s3m.c:247-250 | flag bit 4 means 16-bit, bit 2 stereo; signedness comes from the file format info |
| S3mRules.AdlibSpeed | fmt/s3m.c:277-281 | an AdLib sample's c5speed outside [1000, 0xFFFF] becomes 8363; inside it is kept |
| S3mRules.NoteCode | fmt/s3m.c:345-356 | note byte 255 is no note; 254 is a note-off on AdLib channels and a note-cut otherwise; any other byte is hi × 12 + lo + 13, between 13 and 206 (not clamped) |
| S3mRules.NoteCodeMaximum | fmt/s3m.c:345-348 | the bound is reached: byte 0xFD decodes to 206, the largest of all, which lies above note 120 |
| S3mRules.NoteRoundTrip | fmt/s3m.c:348 | every note number 13 ..< 205 comes back from its octave/semitone byte, whatever the channel kind |
| S3mRules.VolumeColumn | fmt/s3m.c:358-373 | 255 is no volume effect with param 0; 128..192 is a panning of byte − 128; any other value is a volume, clamped to 64 |
| S3mRules.SpecialCleanup | fmt/s3m.c:378-391 | after effect import, SD0 erases the whole cell and SC0 clears only effect and parameter; every other cell is kept |
| S3mRules.DecRoundTrip | fmt/s3m.c:433 | the decimal text reads back as the number printed |
| S3mRules.Hex2RoundTrip | fmt/s3m.c:450 | the two hex digits read back as the byte printed, so the printed minor version is the file's |
| S3mRules.TrackerBands | fmt/s3m.c:404-450 | a tracker ID is written exactly for version bands 1-5; on 0x1320 the Modplug fingerprint wins, then Velvet, then an ultraclick value other than 16, 24 or 32 gives "Unknown tracker"; IT versions above 0x3214 give "Impulse Tracker 2.14p" and the patch number |
| S3mRules.ImpulsePatchLevel | fmt/s3m.c:429-434 | the IT 2.14 patch level can be read back from the ID string |
| S3mFormat.Tag | fmt/s3m.c:89-92 | the tag is bytes 44..47 of the file, zero where the file is shorter |
| S3mFormat.TagAgrees | fmt/s3m.c:89-91 | whenever the file reaches offset 44 the loader's reading of the tag is bytes 44..47 |
| S3mFormat.ShortFileTag | fmt/s3m.c:89-91 | a 4-byte file holding "SCRM" passes the loader's tag check although it has no tag at 44 |
| S3mFormat.ReadInfo | fmt/s3m.c:35-45 | a file is recognised exactly when it is longer than 48 bytes with "SCRM" at 44; its title is the first 27 bytes and its description "Scream Tracker 3" |
| S3mFormat.ReadInfoImpliesTag | fmt/s3m.c:37 | every file the browser recognises also passes the loader's tag check (also lines 89-91) |
| S3mFormat.CountsAt | fmt/s3m.c:94-108 | the title is 25 bytes read from offset 0 with byte 25 forced to NUL; the three counts are 16-bit words |
| S3mFormat.SampleCountOverrun | fmt/s3m.c:110-111 | the check as written accepts nsmp == MAX_SAMPLES, with which the header loop (line 222) writes slot MAX_SAMPLES, one past the last; the corrected check keeps every written slot in range and implies the written one |
| S3mFormat.MiscOf | fmt/s3m.c:118-120 | samples are unsigned unless the format info is 1; stored pannings are used exactly when the panning byte is 0xFC (also lines 141-142) |
| S3mFormat.HeaderOffsets | fmt/s3m.c:488-500 | the field sizes of `struct s3m_header` put ordnum at 32, flags at 38, the tag at 44, gv at 48, mv at 51, dp at 53, reserved at 54, special at 62 and the channel table at 64 |
| S3mFormat.CountsLayout | fmt/s3m.c:94-108 | in a file holding a whole header, the reads after the rewind and skip land on the title, ordnum, smpnum and patnum fields (also lines 488-493) |
| S3mFormat.ScalarsLayout | fmt/s3m.c:113-150 | the sequence of reads and skips lands on flags, cwtv, ffi, gv, mv, dp, reserved and special, and ends at the channel table (offset 64) (also lines 493-499) |
| S3mFormat.OrdersFilled | fmt/s3m.c:201-202 | the first nord orders are the file's bytes, the remaining MAX_ORDERS − nord are ORDER_LAST |
| S3mFormat.Scaled | fmt/s3m.c:217-219 | `panning *= 4` multiplies every channel's panning by 4 and changes nothing else |
| S3mFormat.ChannelSettled | fmt/s3m.c:153-219 | after both channel passes and the scaling a channel is at volume 64 with a panning that is a multiple of 4 in 8 .. 248; channels 32..63 are centred (128) and muted |
| S3mFormat.ChannelsSettled | fmt/s3m.c:153-219 | for all 64 channels at once: volume 64, panning a multiple of 4 below 256, channels 32..63 centred and muted, a stored channel muted exactly when its type byte says so |
| S3mFormat.SamplesRunNext | fmt/s3m.c:222-227 | each iteration seeks to its parapointer × 16 (staying put if the seek fails) and reads one header there |
| S3mFormat.SamplesRunStep | fmt/s3m.c:225 | the k-th header is read at its parapointer × 16 when that lies inside the file, whatever came before |
| S3mFormat.PlaceSamples | fmt/s3m.c:222 | header n fills slot n + 1; every other slot is kept |
| S3mFormat.SampleLayout | fmt/s3m.c:227-293 | a header inside the file takes filename from offset 1, the GUS address from 40 and the name from 48, with NULs forced at 12 and 25, global volume 64 and no vibrato (also lines 502-525) |
| S3mFormat.PcmLayout | fmt/s3m.c:233-253 | a PCM header takes length, loop points, volume × 4, c5speed, data parapointer and format from the `pcm` union member, vol, flags and c5speed; flag bit 1 adds CHN_LOOP (also lines 502-525) |
| S3mFormat.SummariesAppend | fmt/s3m.c:251-252 | one more header folds its address into the or and its nonzero PCM length into any_samples (also lines 285) |
| S3mFormat.AnySamplesExists | fmt/s3m.c:251-252 | any_samples holds exactly when some PCM header has a nonzero length |
| S3mFormat.GusOrBits | fmt/s3m.c:285 | the or-ed GUS word has exactly the bits some header's address has |
| S3mFormat.DataRunStep | fmt/s3m.c:298-303 | slot k gets a request at its data parapointer × 16 exactly when its length is nonzero and it is not AdLib |
| S3mFormat.DataReadsSound | fmt/s3m.c:298-303 | every request is for a slot that needs data, with that slot's format, at its data parapointer × 16 when that lies inside the file |
| S3mFormat.DataReadsOrdered | fmt/s3m.c:298 | requests come in slot order, each slot at most once |
| S3mFormat.DataReadsComplete | fmt/s3m.c:298-303 | every slot that needs data is requested |
| S3mFormat.RowStreamStops | fmt/s3m.c:325-332 | the stream stops at row 64, at the end offset, or at EOF, and reports truncation exactly in the last case |
| S3mFormat.RowStreamSkips | fmt/s3m.c:333-337 | mask 0 ends the row |
| S3mFormat.RowStreamCell | fmt/s3m.c:326-338 | a nonzero mask writes cell 64 × row + (mask & 31), which is always inside the 4096-cell grid |
| S3mFormat.RowStreamFacts | fmt/s3m.c:325-394 | the stream never changes a cell of an earlier row, and reports truncation exactly when it stopped at the end of the file inside the pattern |
| S3mFormat.EmptyRows | fmt/s3m.c:325-337 | 64 zero masks decode to a pattern of 64 blank rows |
| S3mFormat.PatternsRun | fmt/s3m.c:311-317 | a pattern is decoded exactly when its parapointer is nonzero, always into 64 rows |
| S3mFormat.PatternsRunNext | fmt/s3m.c:311-332 | each pattern with a parapointer is decoded in turn, and a truncated one is logged with its number |
| S3mFormat.PlacePatterns | fmt/s3m.c:323 | decoded patterns replace their slots; skipped ones keep theirs |
| S3mFormat.LoadStatusCases | fmt/s3m.c:88-111 | the load succeeds exactly on a tagged file with counts in range; an untagged file returns UNSUPPORTED and changes nothing; bad counts return FORMAT_ERROR with only the title read; FILE_ERROR never happens |
| S3mFormat.LoadIsBody | fmt/s3m.c:61-457 | a successful load is the decoding of the whole body after the counts |
| S3mFormat.SongFieldsFacts | fmt/s3m.c:113-456 | after a load SONG_ITOLDEFFECTS is set, NOSTEREO follows bit 7 of mv, tempo is above 32, speed nonzero, slot 0 and slots past nsmp keep their samples, and patterns past npat are kept |
| S3mFormat.LoadedSong | fmt/s3m.c:61-457 | every successful load leaves a song with those properties and the file's order list |
| S3mLoad.ReadWord | fmt/s3m.c:103-108 | `slurp_read` of 2 bytes plus `bswapLE16` gives Word and advances past it |
| S3mLoad.ReadDword | fmt/s3m.c:235-236 | `slurp_read` of 4 bytes plus `bswapLE32` gives Dword and advances past it |
| S3mLoad.ReadCounts | fmt/s3m.c:94-108 | the title and counts are read as CountsAt describes |
| S3mLoad.ReadScalars | fmt/s3m.c:113-150 | the header scalars are read as ScalarsAt describes |
| S3mLoad.SetChannel | fmt/s3m.c:166-187 | the loop body gives ChannelSetting and marks A1-A9 as AdLib |
| S3mLoad.ReadChannels | fmt/s3m.c:153-193 | the settings loop over 32 bytes, then channels 32..63, gives ChannelsAt and the AdLib set |
| S3mLoad.ReadPannings | fmt/s3m.c:210-214 | the default-panning loop gives PanningsAt |
| S3mLoad.ScalePannings | fmt/s3m.c:218-219 | the scaling loop gives Scaled |
| S3mLoad.ReadTables | fmt/s3m.c:201-206 | the order list and both parapointer tables are read in sequence |
| S3mLoad.SettleChannels | fmt/s3m.c:209-219 | default pannings only when the byte was 0xFC, then the scaling |
| S3mLoad.ReadHead | fmt/s3m.c:113-219 | everything from the scalars to the scaling gives HeadAt |
| S3mLoad.ReadPcmBody | fmt/s3m.c:233-253 | the PCM branch gives PcmBody |
| S3mLoad.ReadAdlibBody | fmt/s3m.c:263-272 | the AdLib branch gives AdlibBody |
| S3mLoad.ReadEmptyBody | fmt/s3m.c:255-261 | the empty branch gives EmptyBody |
| S3mLoad.ReadSample | fmt/s3m.c:227-293 | one header gives SampleAt |
| S3mLoad.ReadSlot | fmt/s3m.c:225-293 | one iteration of the header loop extends the headers read by one |
| S3mLoad.StoreSlot | fmt/s3m.c:222 | header n fills slot n + 1 and is folded into the GUS and any-samples summaries (also lines 251-252, 285) |
| S3mLoad.ReadSamples | fmt/s3m.c:222-294 | the header loop places header n in slot n + 1 and computes both summaries |
| S3mLoad.ReadSampleData | fmt/s3m.c:297-304 | the data loop makes exactly the requests DataRun describes |
| S3mLoad.ReadCell | fmt/s3m.c:339-392 | one cell is read as CellAt describes |
| S3mLoad.ReadRowItem | fmt/s3m.c:325-393 | one pass of the row loop either stops at EOF with truncation or moves forward towards the same stream result |
| S3mLoad.ReadRowCell | fmt/s3m.c:338-392 | the cell a nonzero mask names is read over the grid's cell, keeping the stream's result |
| S3mLoad.ReadPattern | fmt/s3m.c:319-394 | one pattern gives PatternAt's grid, truncation flag and cursor |
| S3mLoad.PatternSlot | fmt/s3m.c:311-332 | one iteration of the pattern loop skips a zero parapointer or decodes the pattern into its slot |
| S3mLoad.ReadPatterns | fmt/s3m.c:310-396 | the pattern loop decodes every pattern with a parapointer into its slot |
| S3mLoad.StoreHead | fmt/s3m.c:113-202 | storing the header changes the song fields exactly as HeadFields says |
| S3mLoad.LoadSampleParts | fmt/s3m.c:221-308 | the header loop, the data loop unless LOAD_NOSAMPLES, and the GUS check give WithSamples |
| S3mLoad.LoadPatternParts | fmt/s3m.c:310-450 | the pattern loop unless LOAD_NOPATTERNS, then the tracker ID, gives WithPatterns |
| S3mLoad.LoadSongBody | fmt/s3m.c:113-456 | everything after the count check leaves the song fields of SongFields |
| S3mLoad.LoadSong | fmt/s3m.c:61-457 | the whole loader leaves the status, song fields, sample requests and warnings Load describes (with the corrected tag and count checks) |
| LoadSave.FixName | schism/audio_loadsave.c:62-65 | the repair keeps the length, every non-NUL byte among 0..24 and every byte past 25, and leaves no NUL among 0..24 with byte 25 terminating the name |
| LoadSave.FixNameFixes | schism/audio_loadsave.c:62-65 | after the repair no byte among 0..24 is NUL and byte 25 terminates the name; an already repaired name is left as it is |
| LoadSave.FixNameIdempotent | schism/audio_loadsave.c:57-74 | repairing twice equals repairing once, so an instrument reached from two slots ends up the same |
| LoadSave.FixNameBytes | schism/audio_loadsave.c:62-65 | the byte loop computes exactly the repaired name |
| LoadSave.FixNames | schism/audio_loadsave.c:57-74 | every sample and instrument name in slots 1 and up is repaired and has no NUL before byte 25; slot 0, the instrument table and every other sample field are unchanged |
| LoadSave.ConvertNewlines | schism/audio_loadsave.c:185-192 | the rewritten message has the original's length |
| LoadSave.ConvertNewlinesFacts | schism/audio_loadsave.c:185-192 | no '\n' is left, every other character is kept, and a message without '\n' is unchanged |
| LoadSave.ConvertNewlinesIdempotent | schism/audio_loadsave.c:185-192 | rewriting twice equals rewriting once |
| LoadSave.ConvertMessage | schism/audio_loadsave.c:185-192 | the in-place loop leaves the message rewritten '\n' to '\r' |
| LoadSave.FirstDecisive | schism/audio_loadsave.c:218-241 | the first loader from i on that does not decline (UNSUPPORTED, or FILE_ERROR with errno 0), every loader before it declining |
| LoadSave.ProbeDecides | schism/audio_loadsave.c:218-241 | the probe loop runs loaders up to the first decisive one; success ends with err 0, any other decisive status ends it with that status's err; when all decline err is what the last one left |
| LoadSave.CreateResultCases | schism/audio_loadsave.c:218-250 | success gives the song; FORMAT_ERROR and FILE_ERROR give NULL with their errors; all declining gives "unsupported" after an UNSUPPORTED last, and a song after an errno-0 FILE_ERROR last or an empty table |
| LoadSave.CreateLoad | schism/audio_loadsave.c:194-257 | the result is the probe loop's verdict; on success the stop markers are -1 and the message has its '\n' rewritten |
| LoadSave.SongNew | schism/audio_loadsave.c:94-161 | each part not kept is reset (patterns freed with 64 rows and the file name and base name cleared, samples zeroed with 8363 Hz and volumes 256/64, instruments emptied, orders ORDER_LAST, title and message cleared, channels and voices at their defaults); each kept part is unchanged; the repeat count is 0 |
| LoadSave.ClearPatterns | schism/audio_loadsave.c:106-113 | every pattern slot is empty with both sizes 64 |
| LoadSave.ResetSamples | schism/audio_loadsave.c:115-127 | sample 0 is all zero and every other sample has the default speed and volumes |
| LoadSave.ClearInstruments | schism/audio_loadsave.c:128-135 | every instrument slot is empty |
| LoadSave.ResetChannels | schism/audio_loadsave.c:136-151 | every channel is at volume 64, panning 128, no flags, and its voice at volume 256 with the channel's settings and cutoff 0x7F |
| LoadSave.ClearSample | schism/audio_loadsave.c:364-373 | only slot n changes, to the default sample |
| LoadSave.ByteLength | schism/audio_loadsave.c:380-384 | the byte count is the frame count, doubled for 16-bit and again for stereo |
| LoadSave.Copied | schism/audio_loadsave.c:375-389 | the copy has every field of the source and, when the source has data, exactly ByteLength bytes of it |
| LoadSave.CopyIsExact | schism/audio_loadsave.c:375-389 | a source whose buffer is exactly its byte length is copied unchanged |
| LoadSave.CopySample | schism/audio_loadsave.c:375-389 | only slot n changes, to the copy of the source |
| LoadSave.SweepSamples | schism/audio_loadsave.c:398-427 | with no instrument in the target slot nothing changes; otherwise exactly the samples from 1 up that the target's map names and no other instrument's map names are zeroed |
| LoadSave.MarkTarget | schism/audio_loadsave.c:402-406 | a sample is marked exactly when the target's map names it |
| LoadSave.Unmark | schism/audio_loadsave.c:407-415 | after slot q a sample stays marked exactly when the target names it and no other slot up to q does |
| LoadSave.FirstFree | schism/audio_loadsave.c:734-746 | the first slot from `from` up without data, every slot before it having data, or MAX_SAMPLES when there is none |
| LoadSave.InstrumentLoader.constructor | schism/audio_loadsave.c:705-713 | no samples expected, basex 1, the slot recorded and an all-zero map |
| LoadSave.InstrumentLoader.Sample | schism/audio_loadsave.c:728-749 | file sample 0 gives 0; a number seen before gives its remembered slot; a new one takes the first data-less slot from basex up, records it, moves basex past it and counts it; with none left the result is 0 and nothing changes; no two file samples ever share a slot |
| Util.LastIndexOf | schism/util.c:201 | the index found holds the character and none follows it; no index means the character does not occur |
| Util.BasenameFacts | schism/util.c:199-212 | the base name is a suffix of the path; it is the whole path when there is no separator or the last one ends the path, and otherwise it is the non-empty, separator-free part after the last separator |
| Util.CLen | schism/util.c:219 | the length is the index of the first NUL |
| Util.Content | schism/util.c:219 | the C string a buffer holds contains no NUL |
| Util.CLenAt | schism/util.c:219 | a NUL with none before it is where the string ends |
| Util.LeadingSpace | schism/util.c:214-218 | the length of the leading run of characters from " \t\v\r\n" |
| Util.TrimLeft | schism/util.c:216-224 | the result is a suffix of the string that does not start with whitespace, everything removed being whitespace |
| Util.KeptLength | schism/util.c:226-235 | the kept length drops exactly the trailing whitespace, except that the first character is never dropped |
| Util.RightTrimmedUnique | schism/util.c:226-235 | only one length satisfies that description |
| Util.TrimmedFacts | schism/util.c:237-241 | trimming leaves a contiguous part of the string, empty exactly when it is all whitespace, otherwise starting and ending with non-whitespace; trimming again changes nothing |
| Util.LTrim | schism/util.c:216-224 | after the move the buffer holds the string without its leading whitespace, and the result is its length |
| Util.RTrim | schism/util.c:226-235 | the buffer holds the string cut to the kept length, which is the result |
| Util.Trim | schism/util.c:237-241 | the buffer holds the trimmed string and the result is its length |
| Util.HexDigit | schism/util.c:249-253 | a hex digit's value is below 16 |
| Util.HexValue | schism/util.c:243-258 | the value of k digits is below 16^k, and there is none exactly when one of them is not a hex digit |
| Util.ReadHex | schism/util.c:243-258 | readhex returns the value of the w digits, or -1 when one of them is not a hex digit |
| Util.DigitOfHex | schism/util.c:249-253 | every digit of either alphabet reads back as its value |
| Util.HexRoundTrip | schism/util.c:243-258 | readhex reads back any w-digit rendering, in either case, of a value below 16^w, whatever surrounds it |
| Util.Octal | schism/util.c:272-281 | an octal escape reads at most three digits, its value fits a char, and with no digit read the value is the start |
| Util.Unit | schism/util.c:268-322 | each input unit advances the input by at least one character |
| Util.Unescaped | schism/util.c:261-327 | the output is no longer than the input |
| Util.UnescapeIdentity | schism/util.c:319-321 | input without a backslash comes back unchanged |
| Util.UnitOfEscape | schism/util.c:268-318 | an escaped character decodes to itself, whatever follows |
| Util.UnescapedShift | schism/util.c:261-327 | unescaping the input after a prefix does not depend on the prefix |
| Util.UnitShift | schism/util.c:268-322 | one unit decodes the same after a prefix |
| Util.OctalShift | schism/util.c:272-281 | an octal escape decodes the same after a prefix |
| Util.HexShift | schism/util.c:243-258 | hex digits read the same after a prefix |
| Util.UnescapeEscape | schism/util.c:260-327 | str_unescape inverts escaping of backslash, newline, carriage return and tab on every string without NUL |
| Util.OctalLoop | schism/util.c:273-278 | the digit loop computes the octal escape's value modulo 256 and where it stops |
| Util.UnescapeUnit | schism/util.c:269-322 | one pass of the loop body writes the unit's character and continues after the unit |
| Util.Unescape | schism/util.c:261-327 | the output buffer is one longer than the input, holds the unescaped string up to d and NULs from d on |
| InstrumentPage.Transposed | schism/page_instruments.c:724-730 | every one of the 120 table entries lands in the note range 1..120; entries past the table are kept |
| InstrumentPage.TransposeBack | schism/page_instruments.c:724-730 | transposing back undoes a transposition that stayed inside the note range |
| InstrumentPage.TransposeZero | schism/page_instruments.c:724-730 | transposing by 0 leaves a table of valid notes unchanged |
| InstrumentPage.Transpose | schism/page_instruments.c:724-730 | the loop leaves the note map transposed and clamped |
| InstrumentPage.InsertFacts | schism/page_instruments.c:732-744 | an insert keeps rows before pos and past the table, moves rows pos..118 down one, keeps the sample at pos and gives row pos one note above the row before it (C-0 on row 0) |
| InstrumentPage.DeleteAfterInsert | schism/page_instruments.c:732-754 | deleting where a row was inserted gives back every row but 119, which the insert pushed out |
| InstrumentPage.Insert | schism/page_instruments.c:732-744 | both maps end up as the insert describes |
| InstrumentPage.ShiftUp | schism/page_instruments.c:735-738 | the downward copy loop moves rows pos..118 of both maps down one |
| InstrumentPage.Delete | schism/page_instruments.c:746-754 | both maps shift up from pos, row 119 reading entry 120, and row 119's note becomes one above row 118's |
| InstrumentPage.ShiftDown | schism/page_instruments.c:749-752 | the upward copy loop moves rows pos+1..120 of both maps up one |
| InstrumentPage.RepairedFacts | schism/page_instruments.c:662-667 | after the draw's repair every shown row holds a note in 1..120, every valid or unshown entry is untouched, and repairing again changes nothing |
| InstrumentPage.RepairShown | schism/page_instruments.c:662-667 | the draw loop leaves the 32 shown rows repaired |
| InstrumentPage.NodeInserted | schism/page_instruments.c:1182-1188 | inserting a node keeps the array's length |
| InstrumentPage.MidpointKeepsOrder | schism/page_instruments.c:1172-1188 | a midpoint tick that differs from both neighbours keeps the ticks strictly ascending |
| InstrumentPage.NodeAdded | schism/page_instruments.c:1163-1195 | the envelope is unchanged exactly when there is no room (more than 24 nodes, the last node current, or no override and a midpoint equal to a neighbour); otherwise it has one node more |
| InstrumentPage.AddNode | schism/page_instruments.c:1163-1195 | the envelope ends up as NodeAdded says and the current node is returned |
| InstrumentPage.PlaceNode | schism/page_instruments.c:1182-1192 | the new node sits after the current one, later nodes move up, the count grows by one and every loop and sustain index past the current node is incremented |
| InstrumentPage.InsertAfter | schism/page_instruments.c:1183-1188 | the move and the store leave the array with the node inserted after c |
| InstrumentPage.ShiftNodes | schism/page_instruments.c:1183-1186 | the overlapping move shifts elements c..n-2 up one and keeps every other element |
| InstrumentPage.AddNodeKeepsOrder | schism/page_instruments.c:1163-1195 | adding a midpoint node to an ascending envelope keeps it ascending and within its capacity |
| InstrumentPage.SaveRestoreRoundTrip | schism/page_instruments.c:114-185 | saving a section's flags and restoring them into another instrument carries exactly that section's bits over and keeps every other bit |
| InstrumentPage.SectionBitTrips | schism/page_instruments.c:123-178 | every section bit is stored in a volume-section bit that restores to it |
| InstrumentPage.SlotIndex | schism/page_instruments.c:118 | the slot is below 10, the remainder of the slot for non-negative 32-bit values |
| InstrumentPage.EnvelopeClipboard.constructor | schism/page_instruments.c:109-110 | all ten slots start zeroed |
| InstrumentPage.EnvelopeClipboard.Save | schism/page_instruments.c:114-144 | only the chosen slot changes, holding a copy of the envelope and the section's flags |
| InstrumentPage.EnvelopeClipboard.Restore | schism/page_instruments.c:145-185 | the envelope becomes the slot's copy and the instrument's flags get the section's saved bits, others kept |
| InstrumentPage.SaveFlags | schism/page_instruments.c:123-143 | the switch stores the section's bits as SavedBits describes |
| InstrumentPage.RestoreFlags | schism/page_instruments.c:156-180 | the switch restores the section's bits as RestoredBits describes |
| InstrumentPage.RestorePanning | schism/page_instruments.c:162-169 | the panning case restores the panning bits |
| InstrumentPage.RestorePitch | schism/page_instruments.c:171-178 | the pitch case restores the pitch and filter bits |
| InstrumentPage.CopyInto | schism/page_instruments.c:154 | the array holds the copied sequence |
| InstrumentPage.PageState.constructor | schism/page_instruments.c:81-89 | the list starts at instrument 1 and the table at row 0 with the first column selected |
| InstrumentPage.PageState.ListReposition | schism/page_instruments.c:212-222 | the list scrolls the least amount that shows the current instrument among its 35 rows, never above instrument 1 |
| InstrumentPage.PageState.NoteTransReposition | schism/page_instruments.c:645-652 | the table scrolls the least amount that shows the selected row among its 32 rows |
| InstrumentPage.PageState.FinishKey | schism/page_instruments.c:998-1003 | the row and cursor are clamped into the table; a changed row becomes the selection and is scrolled by the least amount that shows it (top = row when above the old top, row − 31 when below the old page, the old top otherwise); an unchanged row keeps the scroll |
| InstrumentPage.PageState.OctaveKey | schism/page_instruments.c:945-952 | only the selected row's note changes, to the octave edit of it; the selection moves one row down (staying on row 119) and the table scrolls by the least amount that shows it, as the key handler's tail does |
| InstrumentPage.OctaveNoteFacts | schism/page_instruments.c:949 | for a note the octave edit keeps its semitone, sets the octave to the digit and stays in 1..120 |
| PatternEditor.TrackWidth | schism/page_patedit.c:234-243 | each of the seven track views is 1 to 13 columns wide |
| PatternEditor.LetterValue | schism/page_patedit.c:401-404 | a letter of either case stands for a value below 26 |
| PatternEditor.EncodedScheme | schism/page_patedit.c:358-360 | the saved scheme string has one character per channel |
| PatternEditor.EncodedMulti | schism/page_patedit.c:363-365 | the saved multichannel string has one character per channel |
| PatternEditor.SchemeStop | schism/page_patedit.c:397-412 | the decoding stops at the first byte that is not a letter, every byte before it being a letter |
| PatternEditor.SchemeStopIs | schism/page_patedit.c:397-412 | a non-letter with only letters before it is where the decoding stops |
| PatternEditor.DecodedScheme | schism/page_patedit.c:394-415 | the decoded scheme has one entry per channel |
| PatternEditor.DecodedSchemeAsWritten | schism/page_patedit.c:397-415 | the source's decoding agrees with the corrected one on every buffer that is not corrupt |
| PatternEditor.CorruptSchemeKept | schism/page_patedit.c:405-413 | for the buffer "c!" the source logs "using default" yet keeps the 'c' as view 2 of channel 0, even after the visible area is recalculated, where the default gives view 0 |
| PatternEditor.CorruptSchemeIsDefault | schism/page_patedit.c:405-409 | a corrupt buffer decodes to what the default string "a" decodes to |
| PatternEditor.SchemeRoundTrip | schism/page_patedit.c:358-415 | saving a scheme of values below 26 and loading it back gives the same scheme |
| PatternEditor.SchemePadsShortString | schism/page_patedit.c:397-415 | a string of fewer than 64 letters loads as its letter values, padded with the last one (0 for the empty string) |
| PatternEditor.NulStop | schism/page_patedit.c:420-422 | the multichannel decoding stops at the first NUL |
| PatternEditor.NulStopIs | schism/page_patedit.c:420-422 | a NUL with none before it is where that decoding stops |
| PatternEditor.DecodedMulti | schism/page_patedit.c:418-426 | the decoded flags have one entry per channel |
| PatternEditor.MultiRoundTrip | schism/page_patedit.c:363-426 | saving the multichannel flags and loading them back gives each flag as 1 or 0 |
| PatternEditor.RepairedView | schism/page_patedit.c:662-668 | the view a channel shows after the repair is a valid track view |
| PatternEditor.Columns | schism/page_patedit.c:669-676 | k channels take at least k columns, twice that with divisions |
| PatternEditor.ShownChannels | schism/page_patedit.c:662-676 | the first channel from n that does not fit in 72 columns, every channel before it fitting |
| PatternEditor.ShownChannelsIs | schism/page_patedit.c:662-676 | a channel that does not fit with all before it fitting is where the loop stops |
| PatternEditor.VisibleChannels | schism/page_patedit.c:682 | no more than 64 channels are visible |
| PatternEditor.RepairedScheme | schism/page_patedit.c:662-668 | the repaired scheme has one entry per channel |
| PatternEditor.VisibleAreaBounds | schism/page_patedit.c:657-687 | at least one channel is visible, the visible width is within 0..72, and every entry the loop looked at holds a valid view |
| PatternEditor.VisibleAreaMaximal | schism/page_patedit.c:669-672 | the visible channels are the most that fit: one more would pass 72 columns |
| PatternEditor.ValidSchemeKept | schism/page_patedit.c:663-668 | a scheme of valid views is left as it is |
| PatternEditor.RepairIdempotent | schism/page_patedit.c:657-687 | recalculating twice gives the scheme and channel count of recalculating once |
| PatternEditor.RepairedFits | schism/page_patedit.c:662-676 | the repaired scheme shows the same views and fits the same channels as the original, up to the channel that stopped the loop |
| PatternEditor.ColumnsAgree | schism/page_patedit.c:669-676 | the columns of k channels depend only on the views they show |
| PatternEditor.ViewSettings.constructor | schism/page_patedit.c:248-250 | the scheme and multichannel tables start zeroed, multichannel off, divisions off and the top channel 1 |
| PatternEditor.ViewSettings.CfgSave | schism/page_patedit.c:357-366 | the two strings written are the encoded scheme and the encoded multichannel flags |
| PatternEditor.ViewSettings.LoadScheme | schism/page_patedit.c:394-415 | the scheme table holds the decoded scheme, a corrupt buffer giving the default (with the corrected decoding; see Findings) |
| PatternEditor.ViewSettings.FillScheme | schism/page_patedit.c:413-415 | the first n entries are copied and the rest filled with r |
| PatternEditor.ViewSettings.LoadMulti | schism/page_patedit.c:417-426 | the flags hold the decoded multichannel string, and multichannel is on exactly when one flag is set |
| PatternEditor.ViewSettings.ClearMulti | schism/page_patedit.c:418 | every multichannel flag is 0 |
| PatternEditor.ViewSettings.RecalculateVisibleArea | schism/page_patedit.c:657-687 | the scheme is repaired, the visible channels and width are those of the repaired scheme, and the top channel is lowered so that no channel past 64 is shown |
| PatternEditor.ViewSettings.ScanScheme | schism/page_patedit.c:661-676 | the loop counts the channels that fit, sums their columns and repairs the entries it looks at |
| PatternEditor.ViewSettings.CfgLoad | schism/page_patedit.c:370-432 | divisions follow the stored number; the scheme is decoded and then repaired with the visible area recalculated; the multichannel flags are decoded (with the corrected decoding; see Findings) |
| PatternUndo.SnapRow | schism/page_patedit.c:450-463 | each snapshot row is `width` cells |
| PatternUndo.Blanks | schism/page_patedit.c:450-452 | the cleared cells are all blank |
| PatternUndo.SnapRowList | schism/page_patedit.c:444-463 | a snapshot has `height` rows of `width` cells each |
| PatternUndo.SnapRowListAt | schism/page_patedit.c:444-463 | each row of a snapshot is the one SnapRow gives for that row |
| PatternUndo.SnapRowsBlankPast | schism/page_patedit.c:449-451 | the rows of a snapshot past the pattern's last row are blank |
| PatternUndo.SnapCells | schism/page_patedit.c:448 | a snapshot holds width times height cells |
| PatternUndo.AreaIsProduct | schism/page_patedit.c:448 | the row-by-row cell count is width times rows |
| PatternUndo.AreaMonotone | schism/page_patedit.c:459-463 | fewer rows take no more cells |
| PatternUndo.FlattenLength | schism/page_patedit.c:448 | rows laid out one after the other take width times rows cells |
| PatternUndo.FlattenRowAt | schism/page_patedit.c:460 | row i of the layout starts at cell width times i |
| PatternUndo.SliceOfAppend | schism/page_patedit.c:459-463 | a stretch of a joined sequence inside its first part, or exactly its second part, is that part's stretch |
| PatternUndo.FlattenStep | schism/page_patedit.c:459-463 | laying out one more row appends that row |
| PatternUndo.FlattenBlankTail | schism/page_patedit.c:450-463 | rows that are blank from row m on lay out as the first m rows followed by blanks |
| PatternUndo.SnapCellAt | schism/page_patedit.c:438-465 | cell ch of snapshot row `row` is the pattern's cell at row row + y, channel x + ch, or blank when that row is past the pattern |
| PatternUndo.AppendStretch | schism/page_patedit.c:455-457 | two adjacent stretches of a sequence make the stretch they cover |
| PatternUndo.WholeRows | schism/page_patedit.c:455-457 | a snapshot spanning all 64 channels is, row for row, one stretch of the pattern from row y |
| PatternUndo.WholePatternSnap | schism/page_patedit.c:504-514 | a snapshot of the whole pattern, as the fast save and the pattern undo take, is the pattern itself |
| PatternUndo.SnapCopy | schism/page_patedit.c:438-465 | the snapshot takes the rectangle's size, corner and cells; its description and pattern number stay |
| PatternUndo.FillSnap | schism/page_patedit.c:448-464 | the snapshot buffer ends up holding the rectangle row by row, blank past the pattern's last row |
| PatternUndo.CopyRectangle | schism/page_patedit.c:455-464 | the rows both the rectangle and the pattern have are copied, and the cells after them are untouched |
| PatternUndo.ClearCells | schism/page_patedit.c:450-452 | every cell is blank |
| PatternUndo.CopyWhole | schism/page_patedit.c:455-457 | the single copy takes the rows that exist from row y on, cell for cell, and touches nothing after them |
| PatternUndo.CopyRows | schism/page_patedit.c:458-463 | the row loop copies every row both the rectangle and the pattern have, and touches nothing after them |
| PatternUndo.CopyRowOf | schism/page_patedit.c:459-462 | one pass appends the next snapshot row after those before it |
| PatternUndo.NextRow | schism/page_patedit.c:460-462 | the row the loop copies lies inside the pattern and is the next snapshot row |
| PatternUndo.CopyRow | schism/page_patedit.c:460-462 | one copy puts `width` pattern cells at `base` and leaves the cells after them |
| PatternUndo.HistoryAdded | schism/page_patedit.c:479-503 | the ring is unchanged exactly when the change is grouped and the top slot holds the same rectangle, pattern and description; otherwise only the next slot (mod 10) changes, to a fresh snapshot with that label, and becomes the top |
| PatternUndo.GroupedRepeatIsNoOp | schism/page_patedit.c:484-493 | repeating a change grouped right after it was recorded records nothing more |
| PatternUndo.UngroupedAddsAdvance | schism/page_patedit.c:494-503 | n ungrouped records of a change leave the ring's top at Advance(top, n) = (top + n) mod 10, the slot holding that change's snapshot |
| PatternUndo.RingWrapsAfterTen | schism/page_patedit.c:495 | ten ungrouped records bring the ring's top back to where it was |
| PatternUndo.Advance | schism/page_patedit.c:495 | the top stays one of the ten slots |
| PatternUndo.AdvanceIs | schism/page_patedit.c:495 | n ungrouped changes move the top n places modulo 10 |
| PatternUndo.UndoHistory.constructor | schism/page_patedit.c:160-161 | ten empty slots with the top at slot 0 |
| PatternUndo.UndoHistory.Add2 | schism/page_patedit.c:479-503 | the ring and its top become what HistoryAdded says |
| PatternUndo.ClampedSelection | schism/page_patedit.c:596-602 | an existing selection ends within the new pattern's rows: one starting past the last row collapses onto it, one ending past it is cut there; channels, a fitting selection and an absent one are kept; order is kept |
| PatternUndo.DecimalText | schism/page_patedit.c:605 | the pattern number is written as digits without a leading zero |
| PatternUndo.DigitChar | schism/page_patedit.c:605 | each digit character spells its value |
| PatternUndo.DecimalRoundTrip | schism/page_patedit.c:605 | reading the digits back gives the pattern number |
| PatternUndo.FirstOrderFrom | schism/page_patedit.c:635-642 | the order found is the first from `from` on, below 255, that plays the pattern; none found means no such order |
| PatternUndo.PlayFrom | schism/page_patedit.c:625-653 | a set mark plays from the mark; otherwise an order holding the current pattern at the current row, or, when no order below 255 holds it, the pattern itself |
| PatternUndo.PlayFromPrefersLaterOrder | schism/page_patedit.c:634-642 | when an order at or after the current one holds the pattern, playback starts at such an order no later than it |
| PatternUndo.SearchOrders | schism/page_patedit.c:635-651 | the search loop finds exactly FirstOrderFrom's order |
| PatternUndo.EditorCursor.constructor | schism/page_patedit.c:83-161 | row, pattern and order 0, no selection, no mark, and the fast save's initial label |
| PatternUndo.EditorCursor.SetCurrentRow | schism/page_patedit.c:542-549 | the row is clamped to 0..the value song_get_rows_in_pattern reports for the current pattern |
| PatternUndo.EditorCursor.SetCurrentPattern | schism/page_patedit.c:581-613 | the pattern is clamped to 0..199; the row and selection are pulled under song_get_rows_in_pattern's value for it; the whole pattern, song_get_pattern's row count of rows, is recorded in the undo ring as "Pattern n" and becomes the fast save |
| PatternUndo.EditorCursor.PlayFromMark | schism/page_patedit.c:625-653 | playback starts where PlayFrom says, and an order found becomes the current order |
| LogBuffer.Appended | schism/log.c:58-70 | the new line is last, at most 1000 lines are held, and they are the newest of the old lines followed by the new one |
| LogBuffer.AppendedAll | schism/log.c:58-70 | after any appends the log holds min(n, 1000) lines, n counting those it held and those appended, and the last line appended is the newest |
| LogBuffer.LogKeepsNewest | schism/log.c:58-70 | after any appends the log holds exactly the last min(n, 1000) lines of everything appended, oldest first |
| LogBuffer.DropThenAppend | schism/log.c:60-67 | dropping d lines and then appending the rest is dropping them from the whole |
| LogBuffer.DropTwice | schism/log.c:63-65 | dropping d lines then k is dropping d + k |
| LogBuffer.TopLineFor | schism/log.c:71 | the page top is 32 lines above the last line, kept within 0..968 |
| LogBuffer.NewestLineOnPage | schism/log.c:71 | once there are more than 32 lines the newest one sits a page below the top |
| LogBuffer.UnderlineText | schism/log.c:110-112 | n underline characters 0x81 |
| LogBuffer.Log.constructor | schism/log.c:52-54 | the log starts empty and scrolled to the top |
| LogBuffer.Log.Append2 | schism/log.c:58-75 | the lines held become Appended's, the last index grows up to 999, and the page scrolls to the new line |
| LogBuffer.Log.AppendWithRoom | schism/log.c:60-61 | with room, the line goes in after the others |
| LogBuffer.Log.AppendWhenFull | schism/log.c:62-70 | a full log loses its oldest line and gets the new one last |
| LogBuffer.Log.ShiftDown | schism/log.c:65 | every line moves down one slot, the first lost |
| LogBuffer.Log.Underline | schism/log.c:104-114 | a line of colour 2 with the clamped number of underline characters is appended and the page scrolls to it |
| LogBuffer.UnderlineFilled | schism/log.c:108-112 | the corrected fill gives exactly the clamped number of underline characters, none for 0 |
| LogBuffer.UnderlineFilledAsWritten | schism/log.c:108-112 | the fill as written gives the right text for 1..74 characters, and for 0 (any count up to 0) writes buf[-1] |
| Midi.Padded | schism/midi-core.c:575-579 | a message shorter than 4 bytes is read as itself followed by zeros up to 4 bytes; a longer one is read as it is |
| Midi.Received | schism/midi-core.c:569-613 | at most one event comes of a message, none of an empty one or of one that starts with a data byte |
| Midi.NoteOnZeroIsNoteOff | schism/midi-core.c:582-583 | a Note On with velocity 0 is reported as a Note Off of velocity 0 on the same channel and note |
| Midi.ChannelOfVoiceMessage | schism/midi-core.c:581-595 | every channel voice message gives one channel event on the channel its low nibble names |
| Midi.Encode | schism/midi-core.c:581-611 | a transmitted event starts with a status byte |
| Midi.ReceivedEncode | schism/midi-core.c:569-613 | decoding any transmitted event gives exactly that event back |
| Midi.MidiQueue.constructor | schism/midi-core.c:404-405 | no queue before the first allocation |
| Midi.MidiQueue.Alloc | schism/midi-core.c:407-437 | ms10s is the bytes per 10 ms rounded up, midims is ten times it, and the queue has QueueLength empty entries |
| Midi.MidiQueue.SendBuffer | schism/midi-core.c:519-542 | without a queue or a needed timer nothing changes; otherwise only the entry of the message's 10 ms slot changes, by appending the bytes that fit in its 391-byte buffer |
| Midi.QueueUnit | schism/midi-core.c:419-421 | the unit is the least one whose 80-fold covers sample size times rate |
| Midi.QueueLength | schism/midi-core.c:424-433 | no entries for a buffer shorter than one unit, else the fewest units that cover it |
| Midi.RoundUp | schism/midi-core.c:420 | the round-up idiom gives the least multiple at or above x |
| Midi.EightyOverEight | schism/midi-core.c:421-422 | bytes per millisecond are ten times bytes per 10 ms |
| Midi.DivBounds | schism/midi-core.c:433 | a quotient times the divisor is at most the dividend, and one more is past it |
| Midi.EntryStaysBounded | schism/midi-core.c:533-538 | a queue entry never holds more than 391 bytes, and a message that fits is kept whole |
| Midi.Occupied | schism/midi-core.c:274 | no more ports than slots |
| Midi.OccupiedUpdate | schism/midi-core.c:272-274 | filling an empty slot counts one more, emptying one counts one less |
| Midi.OccupiedGrow | schism/midi-core.c:281-293 | a full table grown by four slots with the port in the first counts one more |
| Midi.OccupiedFull | schism/midi-core.c:270-293 | a table with no empty slot counts all its slots |
| Midi.FirstFrom | schism/midi-core.c:308-321 | the slot found is occupied, at or after `from`, of the wanted provider, and no earlier such slot exists; none found means no such slot |
| Midi.PortTable.constructor | schism/midi-core.c:185-187 | the table starts with no slots and no ports |
| Midi.PortTable.Register | schism/midi-core.c:248-300 | the port takes the lowest empty slot when there is one, else the table grows by four and the port takes the first new slot; the count grows by one and the number returned is the slot |
| Midi.PortTable.Unregister | schism/midi-core.c:546-567 | the port with that number leaves its slot and the count drops by one; without such a port nothing changes |
| Midi.PortTable.Foreach | schism/midi-core.c:302-324 | from the start or after the cursor's slot, the next occupied slot of the provider's ports, or none at the end |
| Midi.PortTable.ForeachAsWritten | schism/midi-core.c:302-324 | the source agrees with Foreach except from a NULL cursor on an empty slot 0, where it returns a NULL port (no provider) or reads through NULL (a provider) |

## Left out

- **File and stdin input** (`_slurp_stdio`, `_slurp_stdio_pipe`, `_slurp_open`, `file_size`, `unslurp`): operating-system calls. The model starts from a byte sequence already in memory.
- **Locks, threads and SDL** (`song_lock_audio`/`song_unlock_audio`, the MIDI mutexes and condition variable, `_midi_queue_run`, `midi_push_event`, `midi_engine_*`): their point is concurrency. Locks are no-ops, and decoded MIDI events are returned as a list.
- **Allocation.** `mem_alloc`, `calloc`, `realloc` and `csf_allocate` are taken to succeed. Freeing memory is not modelled.
- **Fixed limits.** The header that defines the song limits (sndfile.h) is not part of this model. The upstream values are used: MAX_SAMPLES = MAX_INSTRUMENTS = 236, MAX_PATTERNS = 240, MAX_ORDERS = 256, ORDER_LAST = 255, notes 1..120 with 254 cut and 255 off.
- **Callees whose code is not part of this model.** They appear as parameters or as recorded requests:
  - `csf_import_s3m_effect` is the parameter `imp`;
  - `csf_read_sample` calls are the list of sample data requests;
  - `csf_allocate_pattern` gives `SongModel.BlankPattern`;
  - the per-format loaders of `song_create_load` are the list of their outcomes;
  - what `_midi_send_unlocked` reports is the parameter `needTimer`;
  - `song_get_pattern` and `song_get_rows_in_pattern` are pattern cells and row counts given as parameters;
  - `str_escape` is replaced by a minimal reference escaper.
- **PCM sample conversion and the effect translation table:** their code is not part of this model. Only the requests the loader makes are recorded.
- **Floating-point and wrapper helpers** in `schism/util.c` (`dB`, `dB2_amp`, `pdB`, `dB_s`, `ms_sleep`, `str_dup` and the like): not part of the ingestion or editing logic.
- **Drawing and key routing.** Only these parts of `note_trans_handle_key` are modelled: the note repair of `note_trans_draw`, the octave column, and the final clamp and reposition. The other key columns, the screen output and the page builders are left out.
- **The rest of `song_load_instrument_ex`.** Only the sweep (step 0) is modelled. The library transfer and the ITI loaders depend on loaders that are not part of this model.
- **The other pattern editor settings** (`link_effect_column`, `volume_percent`, the crayola flag and the rest): they are plain numbers passed through a configuration parser that is not part of this model. Only `draw_divisions`, the scheme and the multichannel strings are modelled.
- **`_pattern_update_magic`** in `set_current_pattern`: it writes samples to disk.
- **Logging side effects.** The warnings the S3M loader logs are kept as a list of warnings. `log_appendf`'s formatting is not modelled: `LogBuffer.Log.Underline` appends the finished text.
- MmcmpUnpack.Unpack: an access the C code makes outside its buffers (the cases listed under the unpacker's bounds) ends the model with `OutOfBounds` instead of undefined behaviour, and `Slurp` then gets no cursor.
- Midi.MidiQueue.Alloc: does not model `int` overflow of `buffer_size` or `sample_size * samples_per_second`, because the model's integers are unbounded.
- Midi.MidiQueue.SendBuffer: requires the slot `pos / ms10s` to lie in the queue, which the source only asserts.
- Midi.PortTable.Register: does not model the `realloc` failure path returning -1, nor the -1 returned before the port mutex exists.
- Util.ReadHex: requires at most 7 digits. With 8 the C `int` shift can overflow, which is not modelled; the only caller reads 2.
- Util.BasenameFacts: the directory separator is a parameter, since it depends on the build.
- LoadSave.SweepSamples: requires every sample_map entry to be below MAX_SAMPLES. The C code indexes its MAX_SAMPLES-entry flag arrays with these bytes unchecked, so an entry of 236..255 reads and writes past their end; that case is not modelled.
- LoadSave.ConvertMessage: rewrites the whole message. The C loop stops at the first NUL (`strlen`), so on a message holding a NUL it leaves the bytes after it unchanged, where the model rewrites them too. The two agree on every message without a NUL.
- S3mRules.GlobalVolume: the `slurp_getc` result is stored in a signed `int` field, so EOF (−1) at offset 48 gives −2. The song fields' types (sndfile.h) are not part of this model; an unsigned or narrower field would wrap instead.
- S3mRules.Tempo: EOF (−1) is taken as a signed `int`, at most 32, so it becomes 125. An unsigned field would hold 0xFFFFFFFF, which is above 32 and would be kept.
- S3mRules.MixingVolume: EOF (−1) is taken as a signed `int`: bit 7 is set, and clearing it gives −129. An unsigned or narrower field would give a different value.
- S3mLoad.ReadPcmBody: the sample volume `slurp_getc(fp) * 4` is taken into a signed `int`, so a header cut off before its volume byte gives −4 (`S3mFormat.PcmBody`). The sample's field types (sndfile.h) are not part of this model; an unsigned 32-bit field would hold 0xFFFFFFFC.
- S3mLoad.ReadAdlibBody: the same signed-volume assumption as ReadPcmBody: EOF at the volume byte gives −4 (`S3mFormat.AdlibBody`).
- S3mLoad.ReadEmptyBody: the same signed-volume assumption as ReadPcmBody: EOF at the volume byte gives −4 (`S3mFormat.EmptyBody`).
- PatternUndo.EditorCursor.SetCurrentPattern: `song_get_rows_in_pattern` (the clamp's bound) and `song_get_pattern` (the snapshot's row count) are separate parameters, since their code is not part of this model. No relation between the two is assumed, so the model does not show that the clamped row lies inside the pattern.
- LoadSave.SongNew: does not model `song_stop_unlocked(0)` (it stops the player, whose state is not part of this model) or `csf_forget_history` (the song's edit history, whose code is not part of this model). `song_set_filename(NULL)` is modelled as clearing the song's file name and base name.
- PatternUndo.SnapCopy: requires that the rows it reads, `y` to `y + min(height, total_rows)`, lie in the pattern. The C code reads them without a check.

## Findings

| source | as written | input that shows it | evidently intended | confidence | as-written member | corrected member |
|---|---|---|---|---|---|---|
| schism/log.c:108-112 | after clamping, `buf[chars--] = 0` and then a do-while that writes before testing: with 0 characters the first write is `buf[-1]` (and the loop goes on downward) | `log_underline(0)` | an empty underline: no write below `buf[0]` | not executed | LogBuffer.UnderlineFilledAsWritten | LogBuffer.UnderlineFilled |
| schism/midi-core.c:309-311 | from a NULL cursor the first step takes slot 0 without checking that it is occupied | a port table whose slot 0 was unregistered, walked from a NULL cursor: the result is a NULL port (or a NULL dereference when a provider is given) | skip empty slots on the first step as on the later ones | not executed | Midi.PortTable.ForeachAsWritten | Midi.PortTable.Foreach |
| fmt/s3m.c:110-111 | the count check rejects only `nsmp > MAX_SAMPLES`, while the sample loop (line 222) writes slots 1..nsmp | a header with nsmp = MAX_SAMPLES (236): the loop writes `samples[236]`, one past the last slot | reject `nsmp >= MAX_SAMPLES` | not executed; assumes the song has MAX_SAMPLES sample slots | S3mFormat.SampleCountOverrun | S3mFormat.LoadStatusCases |
| fmt/s3m.c:89-92 | the seek to offset 44 fails without notice on a shorter file, and the tag is then read at the cursor's current position | the 4-byte file "SCRM" passes the signature check | refuse a file too short to hold the tag at offset 44 | not executed | S3mFormat.ShortFileTag | S3mFormat.LoadStatusCases |
| schism/page_patedit.c:405-413 | on a corrupt scheme string the loop sets n = 64 and breaks, so the memcpy keeps the letters decoded before the bad character and the raw bytes from it on, although the log says the default is used | the stored scheme "c!": channel 0 keeps view 2, even after the visible area is recalculated, where the default gives view 0 | use the default scheme "a" | not executed; the only call of cfg_load_patedit is commented out (schism/config.c:76), so this version never reaches the path | PatternEditor.CorruptSchemeKept | PatternEditor.CorruptSchemeIsDefault |
