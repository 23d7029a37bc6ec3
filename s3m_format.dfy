/** What fmt_s3m_load_song reads from a file, phase by phase, as functions of the file's
    bytes: each phase starts at a cursor position and yields the values it decodes and the
    position it leaves the cursor at, exactly as the reads and seeks of the C code move it. */
module S3mFormat {
  import opened Bytes
  import opened Slurp
  import opened SongModel
  import opened S3mRules

  const SCRM: seq<byte> := [0x53, 0x43, 0x52, 0x4D]

  /** A 16-bit little-endian field read with `slurp_read` (zero-filled at the end). */
  function Word(data: seq<byte>, pos: nat): (r: nat)
    requires pos <= |data|
    ensures r < 0x10000
  {
    LE16(PeekBytes(data, pos, 2), 0)
  }

  /** A 32-bit little-endian field read with `slurp_read`. */
  function Dword(data: seq<byte>, pos: nat): (r: nat)
    requires pos <= |data|
    ensures r < U32_MOD
  {
    LE32(PeekBytes(data, pos, 4), 0)
  }

  // ---------------------------------------------------------------------------
  // Detection

  /** The tag bytes 44..47, zero where the file is shorter. */
  function Tag(data: seq<byte>): (t: seq<byte>)
    ensures |t| == 4 && forall i :: 0 <= i < 4 ==> t[i] == ByteAt(data, 44 + i)
  {
    [ByteAt(data, 44), ByteAt(data, 45), ByteAt(data, 46), ByteAt(data, 47)]
  }

  /** The tag as fmt_s3m_load_song reads it: when the file is shorter than 44 bytes the seek
      fails and the four bytes at the cursor's position are compared instead. */
  function TagAsWritten(data: seq<byte>, pos: nat): seq<byte>
    requires pos <= |data|
  {
    PeekBytes(data, SeekPos(|data|, pos, 44, SEEK_SET), 4)
  }

  /** Whenever the seek succeeds the two readings agree. */
  lemma TagAgrees(data: seq<byte>, pos: nat)
    requires pos <= |data| && |data| >= 44
    ensures TagAsWritten(data, pos) == Tag(data)
  {
  }

  /** A four-byte file holding just "SCRM" passes the loader's tag check but has no tag. */
  lemma ShortFileTag()
    ensures TagAsWritten(SCRM, 0) == SCRM
    ensures Tag(SCRM) != SCRM
  {
    assert PeekBytes(SCRM, 0, 4) == SCRM;
  }

  /** The directory browser's summary of an S3M file: its title, the first 27 bytes. */
  datatype FileInfo = FileInfo(description: string, title: seq<byte>)

  /** fmt_s3m_read_info: more than 48 bytes with "SCRM" at 44. */
  function ReadInfo(data: seq<byte>): (r: Option<FileInfo>)
    ensures r.Some? <==> |data| > 48 && data[44..48] == SCRM
    ensures r.Some? ==> r.value.title == data[..27] && r.value.description == "Scream Tracker 3"
  {
    if |data| > 48 && data[44..48] == SCRM then Some(FileInfo("Scream Tracker 3", data[..27]))
    else None
  }

  /** Every file the browser recognises also carries the tag the loader looks for. */
  lemma ReadInfoImpliesTag(data: seq<byte>, pos: nat)
    requires pos <= |data| && ReadInfo(data).Some?
    ensures Tag(data) == SCRM && TagAsWritten(data, pos) == SCRM
  {
    assert Tag(data) == data[44..48];
  }

  // ---------------------------------------------------------------------------
  // Header

  /** The title and the three counts. */
  datatype Counts = Counts(title: seq<byte>, nord: nat, nsmp: nat, npat: nat)

  /** After the rewind: 25 title bytes (the 26th forced to NUL), a skip of 7, three words. */
  function CountsAt(data: seq<byte>): (r: (Counts, nat))
    ensures r.1 <= |data| && |r.0.title| == 26 && r.0.title[25] == 0
    ensures r.0.nord < 0x10000 && r.0.nsmp < 0x10000 && r.0.npat < 0x10000
  {
    var title := PeekBytes(data, 0, 25) + [0];
    var p1 := AfterRead(data, 0, 25);
    var p2 := SeekPos(|data|, p1, 7, SEEK_CUR);
    var p3 := AfterRead(data, p2, 2);
    var p4 := AfterRead(data, p3, 2);
    (Counts(title, Word(data, p2), Word(data, p3), Word(data, p4)), AfterRead(data, p4, 2))
  }

  /** The count check as written: equal to MAX_SAMPLES passes. */
  predicate CountsFitAsWritten(c: Counts) {
    c.nord <= MAX_ORDERS && c.nsmp <= MAX_SAMPLES && c.npat <= MAX_PATTERNS
  }

  /** The count check the sample loop needs: it writes slots 1 .. nsmp of MAX_SAMPLES. */
  predicate CountsFit(c: Counts) {
    c.nord <= MAX_ORDERS && c.nsmp < MAX_SAMPLES && c.npat <= MAX_PATTERNS
  }

  /** The sample header loop writes slot nsmp; the check as written lets nsmp reach
      MAX_SAMPLES, one past the last slot. The corrected check keeps every slot in range. */
  lemma SampleCountOverrun()
    ensures CountsFitAsWritten(Counts([], 0, MAX_SAMPLES, 0))
    ensures !CountsFit(Counts([], 0, MAX_SAMPLES, 0))
    ensures forall c :: CountsFit(c) ==> CountsFitAsWritten(c) && c.nsmp + 1 <= MAX_SAMPLES
  {
  }

  /** The remaining header fields, raw: `getc` results keep EOF as -1. */
  datatype Scalars = Scalars(flags: nat, trkvers: nat, ffi: nat, gv: int, speed: int, tempo: int,
                             mv: int, uc: int, dp: int, reserved: nat, special: nat)

  /** flags, tracker version and format info words, a skip of 4 over the tag, six single
      bytes, the reserved word, a skip of 6 and the `special` word. */
  function ScalarsAt(data: seq<byte>, pos: nat): (r: (Scalars, nat))
    requires pos <= |data|
    ensures r.1 <= |data|
    ensures r.0.flags < 0x10000 && r.0.trkvers < 0x10000 && r.0.reserved < 0x10000
    ensures r.0.special < 0x10000 && -1 <= r.0.mv < 256
  {
    var p1 := AfterRead(data, pos, 2);
    var p2 := AfterRead(data, p1, 2);
    var p3 := AfterRead(data, p2, 2);
    var p4 := SeekPos(|data|, p3, 4, SEEK_CUR);
    var q1 := AfterRead(data, p4, 1);
    var q2 := AfterRead(data, q1, 1);
    var q3 := AfterRead(data, q2, 1);
    var q4 := AfterRead(data, q3, 1);
    var q5 := AfterRead(data, q4, 1);
    var q6 := AfterRead(data, q5, 1);
    var q7 := AfterRead(data, q6, 2);
    var q8 := SeekPos(|data|, q7, 6, SEEK_CUR);
    (Scalars(Word(data, pos), Word(data, p1), Word(data, p2),
             GetcAt(data, p4), GetcAt(data, q1), GetcAt(data, q2), GetcAt(data, q3),
             GetcAt(data, q4), GetcAt(data, q5), Word(data, q6), Word(data, q8)),
     AfterRead(data, q8, 2))
  }

  /** The loader's misc flags: unsigned samples unless the format info is 1, stored
      pannings when the default-panning byte is 0xFC. */
  function MiscOf(s: Scalars): (m: Misc)
    ensures m.unsigned <==> s.ffi != 1
    ensures m.chanPan <==> s.dp == 0xFC
  {
    Misc(s.ffi != 1, s.dp == 0xFC)
  }

  /** Byte offsets of `struct s3m_header`, the header layout the saver writes. */
  const HEADER_FIELD_SIZES: seq<nat> :=
    [28, 1, 1, 2, 2, 2, 2, 2, 2, 2, 4, 1, 1, 1, 1, 1, 1, 2, 4, 2, 2]

  function OffsetOf(sizes: seq<nat>, k: nat): nat
    requires k <= |sizes|
  {
    if k == 0 then 0 else OffsetOf(sizes, k - 1) + sizes[k - 1]
  }

  lemma HeaderOffsets()
    ensures OffsetOf(HEADER_FIELD_SIZES, 4) == 32 && OffsetOf(HEADER_FIELD_SIZES, 5) == 34
    ensures OffsetOf(HEADER_FIELD_SIZES, 6) == 36 && OffsetOf(HEADER_FIELD_SIZES, 7) == 38
    ensures OffsetOf(HEADER_FIELD_SIZES, 8) == 40 && OffsetOf(HEADER_FIELD_SIZES, 9) == 42
    ensures OffsetOf(HEADER_FIELD_SIZES, 10) == 44 && OffsetOf(HEADER_FIELD_SIZES, 11) == 48
    ensures OffsetOf(HEADER_FIELD_SIZES, 14) == 51 && OffsetOf(HEADER_FIELD_SIZES, 16) == 53
    ensures OffsetOf(HEADER_FIELD_SIZES, 17) == 54 && OffsetOf(HEADER_FIELD_SIZES, 20) == 62
    ensures OffsetOf(HEADER_FIELD_SIZES, 21) == 64
  {
  }

  /** A word or double word wholly inside the file is the little-endian value there. */
  lemma WordInside(data: seq<byte>, pos: nat)
    requires pos + 2 <= |data|
    ensures Word(data, pos) == LE16(data, pos)
  {
  }

  lemma DwordInside(data: seq<byte>, pos: nat)
    requires pos + 4 <= |data|
    ensures Dword(data, pos) == LE32(data, pos)
  {
    assert PeekBytes(data, pos, 4)[2] == data[pos + 2];
  }

  /** In a file that holds a whole header, the counts come from the `struct s3m_header`
      offsets of ordnum, smpnum and patnum, and the cursor is left at `flags`. */
  lemma CountsLayout(data: seq<byte>)
    requires |data| >= 64
    ensures var r := CountsAt(data);
      && r.1 == OffsetOf(HEADER_FIELD_SIZES, 7)
      && r.0.title[..25] == data[..25]
      && r.0.nord == LE16(data, OffsetOf(HEADER_FIELD_SIZES, 4))
      && r.0.nsmp == LE16(data, OffsetOf(HEADER_FIELD_SIZES, 5))
      && r.0.npat == LE16(data, OffsetOf(HEADER_FIELD_SIZES, 6))
  {
    HeaderOffsets();
    WordInside(data, 32);
    WordInside(data, 34);
    WordInside(data, 36);
    assert PeekBytes(data, 0, 25) == data[..25];
  }

  /** ... and the other header fields from the offsets of flags, cwtv, ffi, gv, mv, dp,
      reserved and the last two junk bytes, leaving the cursor at the channel table (64). */
  lemma ScalarsLayout(data: seq<byte>)
    requires |data| >= 64
    ensures var r := ScalarsAt(data, OffsetOf(HEADER_FIELD_SIZES, 7));
      && r.1 == OffsetOf(HEADER_FIELD_SIZES, 21) == 64
      && r.0.flags == LE16(data, OffsetOf(HEADER_FIELD_SIZES, 7))
      && r.0.trkvers == LE16(data, OffsetOf(HEADER_FIELD_SIZES, 8))
      && r.0.ffi == LE16(data, OffsetOf(HEADER_FIELD_SIZES, 9))
      && r.0.gv == data[OffsetOf(HEADER_FIELD_SIZES, 11)]
      && r.0.mv == data[OffsetOf(HEADER_FIELD_SIZES, 14)]
      && r.0.dp == data[OffsetOf(HEADER_FIELD_SIZES, 16)]
      && r.0.reserved == LE16(data, OffsetOf(HEADER_FIELD_SIZES, 17))
      && r.0.special == LE16(data, OffsetOf(HEADER_FIELD_SIZES, 20))
  {
    HeaderOffsets();
    WordInside(data, 38);
    WordInside(data, 40);
    WordInside(data, 42);
    WordInside(data, 54);
    WordInside(data, 62);
  }

  // ---------------------------------------------------------------------------
  // Channels, orders, parapointers, pannings

  /** The channel type byte `c = slurp_getc(fp)` of channel n: EOF stored in a uint8_t is 255. */
  function StoredType(data: seq<byte>, pos: nat, n: nat): byte {
    ToByte(GetcAt(data, pos + n))
  }

  /** The 64 channels after the settings loop: 32 stored ones, 32 unused ones. */
  function ChannelsAt(data: seq<byte>, pos: nat, prev: seq<Channel>): (r: seq<Channel>)
    requires |prev| == MAX_CHANNELS
    ensures |r| == MAX_CHANNELS
  {
    seq(MAX_CHANNELS, n requires 0 <= n < MAX_CHANNELS =>
      if n < 32 then ChannelSetting(prev[n], StoredType(data, pos, n)) else UNUSED_CHANNEL)
  }

  /** The `adlib` bitset: the stored channels whose type is A1..A9. */
  function AdlibSet(data: seq<byte>, pos: nat): set<nat> {
    set n: nat | n < 32 && KindOf(StoredType(data, pos, n)) == AdlibChannel
  }

  /** The order list: `nord` bytes read, the rest ORDER_LAST. */
  function OrdersAt(data: seq<byte>, pos: nat, nord: nat): (r: seq<byte>)
    requires pos <= |data| && nord <= MAX_ORDERS
    ensures |r| == MAX_ORDERS
  {
    PeekBytes(data, pos, nord) + seq(MAX_ORDERS - nord, _ => ORDER_LAST)
  }

  /** `count` little-endian parapointers read as one block of 2 * count bytes. */
  function ParasAt(data: seq<byte>, pos: nat, count: nat): (r: seq<nat>)
    requires pos <= |data|
    ensures |r| == count && forall k :: 0 <= k < count ==> r[k] < 0x10000
  {
    var buf := PeekBytes(data, pos, 2 * count);
    seq(count, k requires 0 <= k < count => LE16(buf, 2 * k))
  }

  /** The stored default pannings (read only when the panning byte was 0xFC). */
  function PanningsAt(data: seq<byte>, pos: nat, chans: seq<Channel>, adlib: set<nat>, trkvers: nat)
    : (r: seq<Channel>)
    requires |chans| == MAX_CHANNELS
    ensures |r| == MAX_CHANNELS
  {
    seq(MAX_CHANNELS, n requires 0 <= n < MAX_CHANNELS =>
      if n < 32 then
        chans[n].(panning := StoredPanning(StoredType(data, pos, n), chans[n].panning, n in adlib, trkvers))
      else chans[n])
  }

  /** The final `panning *= 4` over all 64 channels. */
  function Scaled(chans: seq<Channel>): (r: seq<Channel>)
    ensures |r| == |chans|
    ensures forall n :: 0 <= n < |chans| ==> r[n] == chans[n].(panning := chans[n].panning * 4)
  {
    seq(|chans|, n requires 0 <= n < |chans| => chans[n].(panning := chans[n].panning * 4))
  }

  /** The channels after the settings loop, the optional stored pannings and the scaling. */
  function SettledChannels(data: seq<byte>, p: nat, q: nat, prev: seq<Channel>, chanPan: bool, trkvers: nat)
    : (r: seq<Channel>)
    requires |prev| == MAX_CHANNELS
    ensures |r| == MAX_CHANNELS
  {
    var base := ChannelsAt(data, p, prev);
    Scaled(if chanPan then PanningsAt(data, q, base, AdlibSet(data, p), trkvers) else base)
  }

  lemma ChannelSettled(data: seq<byte>, p: nat, q: nat, prev: seq<Channel>, chanPan: bool, trkvers: nat, n: nat)
    requires |prev| == MAX_CHANNELS && n < MAX_CHANNELS
    ensures var ch := SettledChannels(data, p, q, prev, chanPan, trkvers)[n];
      && ch.volume == 64 && 8 <= ch.panning <= 248 && ch.panning % 4 == 0
      && (n >= 32 ==> ch == Channel(128, 64, true))
      && (n < 32 ==> (ch.mute <==> (prev[n].mute || StoredType(data, p, n) >= 128
                                   || KindOf(StoredType(data, p, n)) == Disabled)))
  {
    var base := ChannelsAt(data, p, prev);
    var t := StoredType(data, p, n);
    assert base[n] == if n < 32 then ChannelSetting(prev[n], t) else UNUSED_CHANNEL;
    assert 2 <= base[n].panning <= 62;
    var mid := if chanPan then PanningsAt(data, q, base, AdlibSet(data, p), trkvers) else base;
    if chanPan {
      var pan := PanningsAt(data, q, base, AdlibSet(data, p), trkvers);
      assert pan[n] == if n < 32 then
        base[n].(panning := StoredPanning(StoredType(data, q, n), base[n].panning, n in AdlibSet(data, p), trkvers))
        else base[n];
    }
    assert mid[n].volume == 64 && mid[n].mute == base[n].mute && 2 <= mid[n].panning <= 62;
    assert n >= 32 ==> mid[n].panning == 32;
    assert SettledChannels(data, p, q, prev, chanPan, trkvers)[n] == mid[n].(panning := mid[n].panning * 4);
    DivModUnique(mid[n].panning * 4, 4, mid[n].panning, 0);
  }

  /** After both channel passes and the scaling every channel is at volume 64 with a panning
      that is a multiple of 4 in 8 .. 248; the unused channels are centred (128) and muted, and
      a stored channel is muted exactly when its type byte says so or it was muted before. */
  lemma ChannelsSettled(data: seq<byte>, p: nat, q: nat, prev: seq<Channel>, chanPan: bool, trkvers: nat)
    requires |prev| == MAX_CHANNELS
    ensures var chans := SettledChannels(data, p, q, prev, chanPan, trkvers);
      && (forall n :: 0 <= n < MAX_CHANNELS ==>
            chans[n].volume == 64 && 8 <= chans[n].panning <= 248 && chans[n].panning % 4 == 0)
      && (forall n :: 32 <= n < MAX_CHANNELS ==> chans[n] == Channel(128, 64, true))
      && (forall n :: 0 <= n < 32 ==>
            (chans[n].mute <==> prev[n].mute || StoredType(data, p, n) >= 128
                                || KindOf(StoredType(data, p, n)) == Disabled))
  {
    forall n | 0 <= n < MAX_CHANNELS
      ensures var ch := SettledChannels(data, p, q, prev, chanPan, trkvers)[n];
        && ch.volume == 64 && 8 <= ch.panning <= 248 && ch.panning % 4 == 0
        && (n >= 32 ==> ch == Channel(128, 64, true))
        && (n < 32 ==> (ch.mute <==> (prev[n].mute || StoredType(data, p, n) >= 128
                                     || KindOf(StoredType(data, p, n)) == Disabled)))
    {
      ChannelSettled(data, p, q, prev, chanPan, trkvers, n);
    }
  }

  // ---------------------------------------------------------------------------
  // Sample headers

  /** What one sample header yields: the new slot, the PCM parapointer, the reader format
      (None: `smp_flags` stays 0), the GUS address word, and the cursor after it. */
  datatype SampleInfo = SampleInfo(sample: Sample, sdata: nat, format: Option<PcmFormat>,
                                   any: bool, gus: nat, pos: nat)

  /** The type-specific middle of a header starting after the 3 `memseg` bytes. */
  datatype Body = Body(sample: Sample, sdata: nat, format: Option<PcmFormat>, any: bool, pos: nat)

  function PcmBody(data: seq<byte>, pos: nat, unsigned: bool, s: Sample, memseg: seq<byte>): (r: Body)
    requires pos <= |data| && |memseg| == 3
    ensures r.pos <= |data|
  {
    var p1 := AfterRead(data, pos, 4);
    var p2 := AfterRead(data, p1, 4);
    var p3 := AfterRead(data, p2, 4);
    var p4 := AfterRead(data, p3, 1);
    var p5 := AfterRead(data, p4, 1);
    var p6 := AfterRead(data, p5, 1);
    var c := ToByte(GetcAt(data, p6));
    var length := Dword(data, pos);
    var sample := s.(length := length, loopStart := Dword(data, p1), loopEnd := Dword(data, p2),
                     volume := GetcAt(data, p3) * 4,
                     flags := if HasBit(c, 1) then s.flags + {Loop} else s.flags);
    Body(sample, PcmPointer(memseg), Some(FormatOf(c, unsigned)), length != 0, AfterRead(data, p6, 1))
  }

  function AdlibBody(data: seq<byte>, pos: nat, s: Sample): (r: Body)
    requires pos <= |data|
    ensures r.pos <= |data|
  {
    var p1 := AfterRead(data, pos, 12);
    var p2 := AfterRead(data, p1, 1);
    var sample := s.(adlibBytes := PeekBytes(data, pos, 12), volume := GetcAt(data, p1) * 4,
                     flags := s.flags + {Adlib}, length := 1, data := Some(Zeros(1)));
    Body(sample, 0, None, false, SeekPos(|data|, p2, 3, SEEK_CUR))
  }

  /** Type 0 and every unknown type: skip 12, the volume, skip 3. */
  function EmptyBody(data: seq<byte>, pos: nat, s: Sample): (r: Body)
    requires pos <= |data|
    ensures r.pos <= |data|
  {
    var p1 := SeekPos(|data|, pos, 12, SEEK_CUR);
    var p2 := AfterRead(data, p1, 1);
    Body(s.(volume := GetcAt(data, p1) * 4), 0, None, false, SeekPos(|data|, p2, 3, SEEK_CUR))
  }

  /** One sample header read at `pos` into the slot that held `prev`. */
  function SampleAt(data: seq<byte>, pos: nat, unsigned: bool, prev: Sample): (r: SampleInfo)
    requires pos <= |data|
    ensures r.pos <= |data| && r.gus < 0x10000
  {
    var kind := ToByte(GetcAt(data, pos));
    var p1 := AfterRead(data, pos, 1);
    var p2 := AfterRead(data, p1, 12);
    var p3 := AfterRead(data, p2, 3);
    var s := prev.(filename := PeekBytes(data, p1, 12) + [0]);
    var body := if kind == S3I_TYPE_PCM then PcmBody(data, p3, unsigned, s, PeekBytes(data, p2, 3))
                else if kind == S3I_TYPE_ADMEL then AdlibBody(data, p3, s)
                else EmptyBody(data, p3, s);
    var c5 := Dword(data, body.pos);
    var q1 := AfterRead(data, body.pos, 4);
    var q2 := SeekPos(|data|, q1, 4, SEEK_CUR);
    var q3 := AfterRead(data, q2, 2);
    var q4 := SeekPos(|data|, q3, 6, SEEK_CUR);
    var sample := body.sample.(c5speed := if kind == S3I_TYPE_ADMEL then AdlibSpeed(c5) else c5,
                               name := PeekBytes(data, q4, 25) + [0],
                               vibType := 0, vibRate := 0, vibDepth := 0, vibSpeed := 0,
                               globalVolume := 64);
    SampleInfo(sample, body.sdata, body.format, body.any, Word(data, q2), AfterRead(data, q4, 25))
  }

  /** The first k iterations of the sample header loop: each seeks to its parapointer * 16. */
  function SamplesRun(data: seq<byte>, paras: seq<nat>, unsigned: bool, prev: seq<Sample>, pos: nat, k: nat)
    : (r: (seq<SampleInfo>, nat))
    requires pos <= |data| && k <= |paras| && k <= |prev|
    ensures |r.0| == k && r.1 <= |data|
    decreases k
  {
    if k == 0 then ([], pos)
    else
      var (infos, p) := SamplesRun(data, paras, unsigned, prev, pos, k - 1);
      var si := SampleAt(data, SeekPos(|data|, p, paras[k - 1] * 16, SEEK_SET), unsigned, prev[k - 1]);
      (infos + [si], si.pos)
  }

  /** The header loop has run k times from `pos0`, producing `infos` and leaving the cursor at `pos`.
      (A predicate rather than an equation, so that a loop can carry it unchanged.) */
  predicate HeadersRead(data: seq<byte>, paras: seq<nat>, unsigned: bool, prev: seq<Sample>, pos0: nat, k: nat,
                        infos: seq<SampleInfo>, pos: nat)
  {
    pos0 <= |data| && k <= |paras| && k <= |prev| && (infos, pos) == SamplesRun(data, paras, unsigned, prev, pos0, k)
  }

  /** `gus_addresses |= gus_address` over the first k headers, on 16 bits. */
  function GusOr(infos: seq<SampleInfo>, k: nat): (r: nat)
    requires k <= |infos|
    ensures r < 0x10000
  {
    if k == 0 then 0
    else
      var g, w := GusOr(infos, k - 1), infos[k - 1].gus % 0x10000;
      Pow2Table(16);
      BitOrBound(g, w, 16);
      BitOr(g, w)
  }

  /** `any_samples`: some PCM header among the first k has a nonzero length. */
  predicate AnySamples(infos: seq<SampleInfo>, k: nat)
    requires k <= |infos|
  {
    k > 0 && (AnySamples(infos, k - 1) || infos[k - 1].any)
  }

  /** `gus` and `any` are the two summaries of the first k headers. */
  predicate Summaries(infos: seq<SampleInfo>, k: nat, gus: nat, any: bool)
  {
    k <= |infos| && gus == GusOr(infos, k) && (any <==> AnySamples(infos, k))
  }

  /** Both summaries depend only on the first k headers. */
  lemma {:induction false} SummariesPrefix(a: seq<SampleInfo>, b: seq<SampleInfo>, k: nat)
    requires k <= |a| && k <= |b| && a[..k] == b[..k]
    ensures GusOr(a, k) == GusOr(b, k) && AnySamples(a, k) == AnySamples(b, k)
  {
    if k > 0 {
      assert a[k - 1] == a[..k][k - 1];
      assert a[..k - 1] == a[..k][..k - 1];
      assert b[..k - 1] == b[..k][..k - 1];
      SummariesPrefix(a, b, k - 1);
    }
  }

  /** One more header: the summaries fold it in. */
  lemma SummariesAppend(before: seq<SampleInfo>, si: SampleInfo)
    ensures GusOr(before + [si], |before| + 1) == BitOr(GusOr(before, |before|), si.gus % 0x10000)
    ensures AnySamples(before + [si], |before| + 1) == (AnySamples(before, |before|) || si.any)
  {
    assert (before + [si])[..|before|] == before[..|before|];
    SummariesPrefix(before + [si], before, |before|);
  }

  /** `any_samples` holds exactly when some header among the first k set it. */
  lemma {:induction false} AnySamplesExists(infos: seq<SampleInfo>, k: nat)
    requires k <= |infos|
    ensures AnySamples(infos, k) <==> exists n :: 0 <= n < k && infos[n].any
  {
    if k > 0 {
      AnySamplesExists(infos, k - 1);
    }
  }

  /** The GUS word or-ed over the headers has every bit some header's word has, and no other. */
  lemma {:induction false} GusOrBits(infos: seq<SampleInfo>, k: nat, j: nat)
    requires k <= |infos|
    ensures Bit(GusOr(infos, k), j) <==> exists n :: 0 <= n < k && Bit(infos[n].gus % 0x10000, j)
  {
    if k == 0 {
      assert 0 / Pow2(j) == 0;
    } else {
      GusOrBits(infos, k - 1, j);
      BitOrBits(GusOr(infos, k - 1), infos[k - 1].gus % 0x10000, j);
    }
  }

  lemma SamplesRunNext(data: seq<byte>, paras: seq<nat>, unsigned: bool, prev: seq<Sample>, pos: nat, k: nat)
    requires pos <= |data| && k < |paras| && k < |prev|
    ensures var r := SamplesRun(data, paras, unsigned, prev, pos, k);
      var si := SampleAt(data, SeekPos(|data|, r.1, paras[k] * 16, SEEK_SET), unsigned, prev[k]);
      SamplesRun(data, paras, unsigned, prev, pos, k + 1) == (r.0 + [si], si.pos)
  {
  }

  /** The slot layout after the header loop: header n fills slot n + 1, other slots keep their values. */
  function PlaceSamples(prev: seq<Sample>, infos: seq<SampleInfo>): (r: seq<Sample>)
    requires |infos| < |prev|
    ensures |r| == |prev|
    ensures forall i :: 0 <= i < |prev| ==>
      r[i] == if 1 <= i <= |infos| then infos[i - 1].sample else prev[i]
  {
    seq(|prev|, i requires 0 <= i < |prev| => if 1 <= i <= |infos| then infos[i - 1].sample else prev[i])
  }

  lemma PlaceSamplesStep(prev: seq<Sample>, infos: seq<SampleInfo>, si: SampleInfo)
    requires |infos| + 1 < |prev|
    ensures PlaceSamples(prev, infos + [si]) == PlaceSamples(prev, infos)[|infos| + 1 := si.sample]
  {
  }

  /** The k-th header is read at its parapointer * 16 whatever the earlier ones looked like,
      when that offset lies inside the file; the earlier results stay as they were. */
  lemma SamplesRunStep(data: seq<byte>, paras: seq<nat>, unsigned: bool, prev: seq<Sample>, pos: nat, k: nat)
    requires pos <= |data| && k < |paras| && k < |prev| && paras[k] * 16 <= |data|
    ensures SamplesRun(data, paras, unsigned, prev, pos, k + 1).0
         == SamplesRun(data, paras, unsigned, prev, pos, k).0 + [SampleAt(data, paras[k] * 16, unsigned, prev[k])]
  {
  }

  /** A header wholly inside the file is read from the `struct s3i_header` offsets: the
      filename at 1, the GUS address word at 40, the name at 48; the cursor ends at 73. */
  lemma SampleLayout(data: seq<byte>, base: nat, unsigned: bool, prev: Sample)
    requires base + 80 <= |data|
    ensures var si := SampleAt(data, base, unsigned, prev);
      && si.pos == base + 73
      && si.sample.filename == data[base + 1..base + 13] + [0]
      && si.sample.name == data[base + 48..base + 73] + [0]
      && si.gus == LE16(data, base + 40)
      && si.sample.globalVolume == 64 && si.sample.vibDepth == 0
  {
    assert PeekBytes(data, base + 1, 12) == data[base + 1..base + 13];
    assert PeekBytes(data, base + 48, 25) == data[base + 48..base + 73];
    WordInside(data, base + 40);
  }

  /** ... and a PCM header's length, loop points, volume, speed, data parapointer and format
      from the offsets of the `pcm` union member, vol, flags and c5speed. */
  lemma PcmLayout(data: seq<byte>, base: nat, unsigned: bool, prev: Sample)
    requires base + 80 <= |data| && data[base] == S3I_TYPE_PCM
    ensures var si := SampleAt(data, base, unsigned, prev);
      && si.sample.length == LE32(data, base + 16) && si.sample.loopStart == LE32(data, base + 20)
      && si.sample.loopEnd == LE32(data, base + 24) && si.sample.volume == 4 * (data[base + 28] as int)
      && si.sample.c5speed == LE32(data, base + 32)
      && si.sdata == PcmPointer(data[base + 13..base + 16])
      && si.format == Some(FormatOf(data[base + 31], unsigned))
      && (Loop in si.sample.flags <==> Loop in prev.flags || HasBit(data[base + 31], 1))
  {
    assert PeekBytes(data, base + 13, 3) == data[base + 13..base + 16];
    DwordInside(data, base + 16);
    DwordInside(data, base + 20);
    DwordInside(data, base + 24);
    DwordInside(data, base + 32);
    var sf := prev.(filename := PeekBytes(data, base + 1, 12) + [0]);
    var body := PcmBody(data, base + 16, unsigned, sf, PeekBytes(data, base + 13, 3));
    assert ToByte(GetcAt(data, base + 31)) == data[base + 31];
    assert body.format == Some(FormatOf(data[base + 31], unsigned));
    assert Loop in body.sample.flags <==> Loop in prev.flags || HasBit(data[base + 31], 1);
    assert SampleAt(data, base, unsigned, prev).format == body.format;
    assert SampleAt(data, base, unsigned, prev).sample.flags == body.sample.flags;
  }

  // ---------------------------------------------------------------------------
  // Sample data

  /** One `csf_read_sample` call: the slot, the format (0 when the header was not PCM) and
      the file offset it reads from. The sample reader is not part of this model. */
  datatype SampleRead = SampleRead(slot: nat, format: Option<PcmFormat>, offset: nat)

  /** A slot gets its data read unless its length is 0 or it is an AdLib sample. */
  predicate NeedsData(s: Sample) {
    s.length != 0 && Adlib !in s.flags
  }

  /** The first k iterations of the sample data loop. The reader is handed the data at the
      cursor and does not move it. */
  function DataRun(data: seq<byte>, infos: seq<SampleInfo>, pos: nat, k: nat): (r: (seq<SampleRead>, nat))
    requires pos <= |data| && k <= |infos|
    ensures r.1 <= |data| && |r.0| <= k
    decreases k
  {
    if k == 0 then ([], pos)
    else
      var (got, p) := DataRun(data, infos, pos, k - 1);
      var si := infos[k - 1];
      if !NeedsData(si.sample) then (got, p)
      else
        var q := SeekPos(|data|, p, si.sdata * 16, SEEK_SET);
        (got + [SampleRead(k, si.format, q)], q)
  }

  /** The data loop has run k times from `pos0`, requesting `requests` and leaving the cursor at `pos`. */
  predicate DataRead(data: seq<byte>, infos: seq<SampleInfo>, pos0: nat, k: nat, requests: seq<SampleRead>, pos: nat)
  {
    pos0 <= |data| && k <= |infos| && (requests, pos) == DataRun(data, infos, pos0, k)
  }

  /** One more iteration of the data loop appends at most the read of slot k. */
  lemma DataRunStep(data: seq<byte>, infos: seq<SampleInfo>, pos: nat, k: nat)
    requires pos <= |data| && 0 < k <= |infos|
    ensures var run := DataRun(data, infos, pos, k - 1);
      var si := infos[k - 1];
      var q := SeekPos(|data|, run.1, si.sdata * 16, SEEK_SET);
      DataRun(data, infos, pos, k).0
        == if NeedsData(si.sample) then run.0 + [SampleRead(k, si.format, q)] else run.0
  {
  }

  /** Every read is of a slot among the first k that needs data, with that slot's format,
      at its data parapointer * 16 when that lies inside the file. */
  lemma {:induction false} DataReadsSound(data: seq<byte>, infos: seq<SampleInfo>, pos: nat, k: nat)
    requires pos <= |data| && k <= |infos|
    ensures var rs := DataRun(data, infos, pos, k).0;
      forall j :: 0 <= j < |rs| ==>
        && 1 <= rs[j].slot <= k && NeedsData(infos[rs[j].slot - 1].sample)
        && rs[j].format == infos[rs[j].slot - 1].format
        && (infos[rs[j].slot - 1].sdata * 16 <= |data| ==> rs[j].offset == infos[rs[j].slot - 1].sdata * 16)
    decreases k
  {
    if k > 0 {
      DataReadsSound(data, infos, pos, k - 1);
      DataRunStep(data, infos, pos, k);
    }
  }

  /** The reads come in slot order, each slot at most once. */
  lemma {:induction false} DataReadsOrdered(data: seq<byte>, infos: seq<SampleInfo>, pos: nat, k: nat)
    requires pos <= |data| && k <= |infos|
    ensures var rs := DataRun(data, infos, pos, k).0;
      forall j, j' :: 0 <= j < j' < |rs| ==> rs[j].slot < rs[j'].slot
    decreases k
  {
    if k > 0 {
      DataReadsOrdered(data, infos, pos, k - 1);
      DataReadsSound(data, infos, pos, k - 1);
      DataRunStep(data, infos, pos, k);
    }
  }

  /** Every slot among the first k that needs data is read. */
  lemma {:induction false} DataReadsComplete(data: seq<byte>, infos: seq<SampleInfo>, pos: nat, k: nat)
    requires pos <= |data| && k <= |infos|
    ensures var rs := DataRun(data, infos, pos, k).0;
      forall n :: 0 <= n < k && NeedsData(infos[n].sample) ==> exists j :: 0 <= j < |rs| && rs[j].slot == n + 1
    decreases k
  {
    if k > 0 {
      DataReadsComplete(data, infos, pos, k - 1);
      DataRunStep(data, infos, pos, k);
      var run := DataRun(data, infos, pos, k - 1);
      var rs := DataRun(data, infos, pos, k).0;
      assert run.0 <= rs;
      forall n | 0 <= n < k && NeedsData(infos[n].sample)
        ensures exists j :: 0 <= j < |rs| && rs[j].slot == n + 1
      {
        if n == k - 1 {
          assert rs[|run.0|].slot == n + 1;
        } else {
          var j :| 0 <= j < |run.0| && run.0[j].slot == n + 1;
          assert rs[j].slot == n + 1;
        }
      }
    }
  }

  // ---------------------------------------------------------------------------
  // Patterns

  /** The fields a cell's mask byte announces: note and instrument (bit 5), volume (bit 6),
      effect and parameter (bit 7); the effect is passed through `imp` (the effect importer,
      which is not part of this model) and then the SD0/SC0 cleanup. */
  function CellAt(data: seq<byte>, pos: nat, mask: byte, cell: Note, adlibChannel: bool, imp: Note -> Note)
    : (r: (Note, nat))
    requires pos <= |data|
    ensures pos <= r.1 <= |data|
  {
    var (c1, p1) :=
      if HasBit(mask, 0x20) then
        var q := AfterRead(data, pos, 1);
        (cell.(note := NoteCode(ToByte(GetcAt(data, pos)), adlibChannel), instrument := ToByte(GetcAt(data, q))),
         AfterRead(data, q, 1))
      else (cell, pos);
    var (c2, p2) :=
      if HasBit(mask, 0x40) then
        var vc := VolumeColumn(ToByte(GetcAt(data, p1)));
        (c1.(volEffect := vc.0, volParam := vc.1), AfterRead(data, p1, 1))
      else (c1, p1);
    if HasBit(mask, 0x80) then
      var q := AfterRead(data, p2, 1);
      (SpecialCleanup(imp(c2.(effect := ToByte(GetcAt(data, p2)), param := ToByte(GetcAt(data, q))))),
       AfterRead(data, q, 1))
    else (c2, p2)
  }

  /** Where the row stream stopped: the grid, whether EOF cut it short (the "file truncated"
      warning), the cursor position and the row it was on. */
  datatype Stream = Stream(grid: seq<Note>, truncated: bool, pos: nat, row: nat)

  /** The packed row stream from `pos` while `row < 64` and the cursor is before `end`: a zero
      mask ends a row, a nonzero one fills cell `64 * row + (mask & 31)`. */
  function RowStream(data: seq<byte>, pos: nat, end: int, row: nat, grid: seq<Note>,
                     adlib: set<nat>, imp: Note -> Note): (r: Stream)
    requires pos <= |data| && row <= 64 && |grid| == 64 * MAX_CHANNELS
    ensures |r.grid| == 64 * MAX_CHANNELS && pos <= r.pos <= |data| && row <= r.row <= 64
    decreases |data| - pos, 64 - row
  {
    if row >= 64 || pos >= end then Stream(grid, false, pos, row)
    else
      var mask := GetcAt(data, pos);
      if mask == EOF then Stream(grid, true, pos, row)
      else if mask == 0 then RowStream(data, pos + 1, end, row + 1, grid, adlib, imp)
      else
        var chn := mask % 32;
        var at := 64 * row + chn;
        var (cell, p) := CellAt(data, pos + 1, mask, grid[at], chn in adlib, imp);
        RowStream(data, p, end, row, grid[at := cell], adlib, imp)
  }

  /** The stream from this state ends in `target`. */
  predicate StreamReaches(data: seq<byte>, pos: nat, end: int, row: nat, grid: seq<Note>,
                          adlib: set<nat>, imp: Note -> Note, target: Stream)
  {
    pos <= |data| && row <= 64 && |grid| == 64 * MAX_CHANNELS && RowStream(data, pos, end, row, grid, adlib, imp) == target
  }

  /** One step of the stream: where it stops, and what a mask byte leads to. */
  lemma RowStreamStops(data: seq<byte>, pos: nat, end: int, row: nat, grid: seq<Note>,
                       adlib: set<nat>, imp: Note -> Note)
    requires pos <= |data| && row <= 64 && |grid| == 64 * MAX_CHANNELS
    requires row >= 64 || pos >= end || GetcAt(data, pos) == EOF
    ensures RowStream(data, pos, end, row, grid, adlib, imp)
         == Stream(grid, row < 64 && pos < end, pos, row)
  {
  }

  lemma RowStreamSkips(data: seq<byte>, pos: nat, end: int, row: nat, grid: seq<Note>,
                       adlib: set<nat>, imp: Note -> Note)
    requires pos < |data| && row < 64 && |grid| == 64 * MAX_CHANNELS
    requires pos < end && GetcAt(data, pos) == 0
    ensures RowStream(data, pos, end, row, grid, adlib, imp)
         == RowStream(data, pos + 1, end, row + 1, grid, adlib, imp)
  {
  }

  lemma RowStreamCell(data: seq<byte>, pos: nat, end: int, row: nat, grid: seq<Note>,
                      adlib: set<nat>, imp: Note -> Note, cell: Note, p: nat)
    requires pos < |data| && row < 64 && |grid| == 64 * MAX_CHANNELS
    requires pos < end && GetcAt(data, pos) != EOF && GetcAt(data, pos) != 0
    requires (cell, p) == CellAt(data, pos + 1, GetcAt(data, pos), grid[64 * row + GetcAt(data, pos) % 32],
                                 GetcAt(data, pos) % 32 in adlib, imp)
    ensures 64 * row + GetcAt(data, pos) % 32 < |grid|
    ensures RowStream(data, pos, end, row, grid, adlib, imp)
         == RowStream(data, p, end, row, grid[64 * row + GetcAt(data, pos) % 32 := cell], adlib, imp)
  {
  }

  /** The cell a mask byte selects, once decoded, leaves the stream's end unchanged. */
  lemma CellKeepsTarget(data: seq<byte>, pos: nat, end: int, row: nat, grid: seq<Note>, adlib: set<nat>,
                        imp: Note -> Note, target: Stream, mask: byte, at: nat, prev: Note, cell: Note, p: nat)
    requires StreamReaches(data, pos, end, row, grid, adlib, imp, target)
    requires pos < |data| && pos < end && row < 64 && mask == GetcAt(data, pos) && mask != 0
    requires at == 64 * row + mask % 32 && at < |grid| && prev == grid[at]
    requires (cell, p) == CellAt(data, pos + 1, mask, prev, mask % 32 in adlib, imp)
    ensures StreamReaches(data, p, end, row, grid[at := cell], adlib, imp, target)
  {
    RowStreamCell(data, pos, end, row, grid, adlib, imp, cell, p);
  }

  /** The stream has reached its result once it stops. */
  lemma StopsAtTarget(data: seq<byte>, pos: nat, end: int, row: nat, grid: seq<Note>, adlib: set<nat>,
                      imp: Note -> Note, target: Stream)
    requires StreamReaches(data, pos, end, row, grid, adlib, imp, target)
    requires row >= 64 || pos >= end || GetcAt(data, pos) == EOF
    ensures target == Stream(grid, row < 64 && pos < end, pos, row)
  {
    RowStreamStops(data, pos, end, row, grid, adlib, imp);
  }

  /** A zero byte moves the stream to the next row towards the same result. */
  lemma SkipKeepsTarget(data: seq<byte>, pos: nat, end: int, row: nat, grid: seq<Note>, adlib: set<nat>,
                        imp: Note -> Note, target: Stream)
    requires StreamReaches(data, pos, end, row, grid, adlib, imp, target)
    requires pos < |data| && pos < end && row < 64 && GetcAt(data, pos) == 0
    ensures StreamReaches(data, pos + 1, end, row + 1, grid, adlib, imp, target)
  {
    RowStreamSkips(data, pos, end, row, grid, adlib, imp);
  }

  /** What a stream started at `row` over `grid` promises about its result `r`: no cell of an
      earlier row changes; truncation is reported exactly when it stopped at the end of the
      file inside the pattern; otherwise it stopped after the 64th row or at `end`. */
  predicate StreamEnds(data: seq<byte>, end: int, row: nat, grid: seq<Note>, r: Stream)
  {
    && 64 * row <= |grid| && 64 * row <= |r.grid|
    && (forall i :: 0 <= i < 64 * row ==> r.grid[i] == grid[i])
    && (r.truncated <==> r.row < 64 && r.pos < end && r.pos == |data|)
    && (!r.truncated ==> r.row == 64 || r.pos >= end)
  }

  lemma {:induction false} RowStreamFacts(data: seq<byte>, pos: nat, end: int, row: nat, grid: seq<Note>,
                                          adlib: set<nat>, imp: Note -> Note)
    requires pos <= |data| && row <= 64 && |grid| == 64 * MAX_CHANNELS
    ensures StreamEnds(data, end, row, grid, RowStream(data, pos, end, row, grid, adlib, imp))
    decreases |data| - pos, 64 - row
  {
    if row >= 64 || pos >= end {
    } else {
      var mask := GetcAt(data, pos);
      if mask == EOF {
      } else if mask == 0 {
        RowStreamSkips(data, pos, end, row, grid, adlib, imp);
        RowStreamFacts(data, pos + 1, end, row + 1, grid, adlib, imp);
        StreamEndsEarlierRow(data, end, row, grid, RowStream(data, pos + 1, end, row + 1, grid, adlib, imp));
      } else {
        var at := 64 * row + mask % 32;
        var cp := CellAt(data, pos + 1, mask, grid[at], mask % 32 in adlib, imp);
        RowStreamCell(data, pos, end, row, grid, adlib, imp, cp.0, cp.1);
        RowStreamFacts(data, cp.1, end, row, grid[at := cp.0], adlib, imp);
        StreamEndsOtherCell(data, end, row, grid, at, cp.0,
                            RowStream(data, cp.1, end, row, grid[at := cp.0], adlib, imp));
      }
    }
  }

  lemma StreamEndsEarlierRow(data: seq<byte>, end: int, row: nat, grid: seq<Note>, r: Stream)
    requires StreamEnds(data, end, row + 1, grid, r)
    ensures StreamEnds(data, end, row, grid, r)
  {
  }

  lemma StreamEndsOtherCell(data: seq<byte>, end: int, row: nat, grid: seq<Note>, at: nat, cell: Note, r: Stream)
    requires 64 * row <= at < |grid| && StreamEnds(data, end, row, grid[at := cell], r)
    ensures StreamEnds(data, end, row, grid, r)
  {
  }

  /** A stream of 64 zero masks is a whole pattern of blank rows. */
  lemma {:induction false} EmptyRows(data: seq<byte>, pos: nat, end: int, row: nat, adlib: set<nat>, imp: Note -> Note)
    requires pos <= |data| && row <= 64 && pos + (64 - row) <= end
    requires pos + (64 - row) <= |data| && forall i :: pos <= i < pos + (64 - row) ==> data[i] == 0
    ensures RowStream(data, pos, end, row, BlankPattern(64), adlib, imp)
         == Stream(BlankPattern(64), false, pos + (64 - row), 64)
    decreases 64 - row
  {
    if row < 64 {
      assert data[pos] == 0;
      EmptyRows(data, pos + 1, end, row + 1, adlib, imp);
    }
  }

  /** One pattern: seek to para * 16, the length word, and the row stream up to
      para * 16 + length + 2 over a fresh 64-row pattern. */
  function PatternAt(data: seq<byte>, pos: nat, para: nat, adlib: set<nat>, imp: Note -> Note): (r: Stream)
    requires pos <= |data|
    ensures |r.grid| == 64 * MAX_CHANNELS && r.pos <= |data|
  {
    var p0 := SeekPos(|data|, pos, para * 16, SEEK_SET);
    var end := para * 16 + Word(data, p0) + 2;
    RowStream(data, AfterRead(data, p0, 2), end, 0, BlankPattern(64), adlib, imp)
  }

  /** What the first k iterations of the pattern loop leave: per pattern its new grid (None
      for a zero parapointer, which is skipped), the patterns warned about, and the cursor. */
  datatype Patterns = Patterns(grids: seq<Option<seq<Note>>>, warnings: seq<nat>, pos: nat)

  function PatternsRun(data: seq<byte>, paras: seq<nat>, adlib: set<nat>, imp: Note -> Note, pos: nat, k: nat)
    : (r: Patterns)
    requires pos <= |data| && k <= |paras|
    ensures |r.grids| == k && r.pos <= |data|
    ensures forall n :: 0 <= n < k ==> (r.grids[n].Some? <==> paras[n] != 0)
    ensures forall n :: 0 <= n < k && r.grids[n].Some? ==> |r.grids[n].value| == 64 * MAX_CHANNELS
    decreases k
  {
    if k == 0 then Patterns([], [], pos)
    else
      var prev := PatternsRun(data, paras, adlib, imp, pos, k - 1);
      if paras[k - 1] == 0 then Patterns(prev.grids + [None], prev.warnings, prev.pos)
      else
        var st := PatternAt(data, prev.pos, paras[k - 1], adlib, imp);
        Patterns(prev.grids + [Some(st.grid)], prev.warnings + (if st.truncated then [k - 1] else []), st.pos)
  }

  /** PatternAt, given the seek target, the end offset and the stream's result. */
  lemma PatternAtIs(data: seq<byte>, pos: nat, para: nat, adlib: set<nat>, imp: Note -> Note,
                    p0: nat, end: int, target: Stream)
    requires pos <= |data| && p0 == SeekPos(|data|, pos, para * 16, SEEK_SET)
    requires end == para * 16 + Word(data, p0) + 2
    requires target == RowStream(data, AfterRead(data, p0, 2), end, 0, BlankPattern(64), adlib, imp)
    ensures PatternAt(data, pos, para, adlib, imp) == target
  {
  }

  lemma PatternsRunNext(data: seq<byte>, paras: seq<nat>, adlib: set<nat>, imp: Note -> Note, pos: nat, k: nat)
    requires pos <= |data| && k < |paras|
    ensures var prev := PatternsRun(data, paras, adlib, imp, pos, k);
      PatternsRun(data, paras, adlib, imp, pos, k + 1)
      == if paras[k] == 0 then Patterns(prev.grids + [None], prev.warnings, prev.pos)
         else var st := PatternAt(data, prev.pos, paras[k], adlib, imp);
              Patterns(prev.grids + [Some(st.grid)], prev.warnings + (if st.truncated then [k] else []), st.pos)
  {
  }

  /** The pattern loop has run k times from `pos0` with the result `pats`. */
  predicate PatternsRead(data: seq<byte>, paras: seq<nat>, adlib: set<nat>, imp: Note -> Note, pos0: nat, k: nat,
                         pats: Patterns)
  {
    pos0 <= |data| && k <= |paras| && pats == PatternsRun(data, paras, adlib, imp, pos0, k)
  }

  /** Patterns with a parapointer replace their slots; the others keep theirs. */
  function PlacePatterns(prev: seq<Option<seq<Note>>>, grids: seq<Option<seq<Note>>>): (r: seq<Option<seq<Note>>>)
    requires |grids| <= |prev|
    ensures |r| == |prev|
    ensures forall i :: 0 <= i < |prev| ==> r[i] == if i < |grids| && grids[i].Some? then grids[i] else prev[i]
  {
    seq(|prev|, i requires 0 <= i < |prev| => if i < |grids| && grids[i].Some? then grids[i] else prev[i])
  }
  lemma PlacePatternsStep(prev: seq<Option<seq<Note>>>, grids: seq<Option<seq<Note>>>, g: Option<seq<Note>>)
    requires |grids| < |prev|
    ensures PlacePatterns(prev, grids + [g])
         == if g.Some? then PlacePatterns(prev, grids)[|grids| := g] else PlacePatterns(prev, grids)
  {
  }


  // ---------------------------------------------------------------------------
  // The whole load

  /** Which optional phases the caller skips (LOAD_NOSAMPLES, LOAD_NOPATTERNS). */
  datatype LoadFlags = LoadFlags(noSamples: bool, noPatterns: bool)

  /** The song fields the loader writes. */
  datatype Fields = Fields(title: seq<byte>, flags: set<SongFlag>, globalVolume: int, speed: int,
                           tempo: int, mixingVolume: int, channels: seq<Channel>, orderlist: seq<byte>,
                           samples: seq<Sample>, patterns: seq<Option<seq<Note>>>, trackerId: string)

  /** A load's outcome: the status, the fields as the loader leaves them, the sample reads
      it requests and the patterns it logs a truncation warning for. */
  datatype Outcome = Outcome(status: LoadStatus, fields: Fields, requests: seq<SampleRead>, warnings: seq<nat>)

  predicate WellSized(f: Fields) {
    |f.title| == 26 && |f.channels| == MAX_CHANNELS && |f.orderlist| == MAX_ORDERS
    && |f.samples| == MAX_SAMPLES && |f.patterns| == MAX_PATTERNS
  }

  /** What the loader has after the header, before the sample headers: raw scalars, misc
      flags, the settled channels, the AdLib channel set, the order list, both parapointer
      tables, and the cursor. */
  datatype Head = Head(s: Scalars, misc: Misc, channels: seq<Channel>, adlib: set<nat>,
                       orders: seq<byte>, paraSmp: seq<nat>, paraPat: seq<nat>, pos: nat)

  function HeadAt(data: seq<byte>, c: Counts, pos: nat, prev: seq<Channel>): (h: Head)
    requires pos <= |data| && c.nord <= MAX_ORDERS && |prev| == MAX_CHANNELS
    ensures h.pos <= |data| && |h.channels| == MAX_CHANNELS && |h.orders| == MAX_ORDERS
    ensures |h.paraSmp| == c.nsmp && |h.paraPat| == c.npat
    ensures h.s.flags < 0x10000 && h.s.trkvers < 0x10000 && h.s.reserved < 0x10000 && -1 <= h.s.mv < 256
    ensures HeadFits(c, h)
  {
    var sp := ScalarsAt(data, pos);
    var s, p1 := sp.0, sp.1;
    var misc := MiscOf(s);
    var p2 := AfterRead(data, p1, 32);
    var p3 := AfterRead(data, p2, c.nord);
    var p4 := AfterRead(data, p3, 2 * c.nsmp);
    var p5 := AfterRead(data, p4, 2 * c.npat);
    Head(s, misc, SettledChannels(data, p1, p5, prev, misc.chanPan, s.trkvers), AdlibSet(data, p1),
         OrdersAt(data, p2, c.nord), ParasAt(data, p3, c.nsmp), ParasAt(data, p4, c.npat),
         if misc.chanPan then AfterRead(data, p5, 32) else p5)
  }

  /** A head whose components have the sizes and ranges HeadAt promises for counts c. */
  predicate HeadFits(c: Counts, h: Head) {
    |h.channels| == MAX_CHANNELS && |h.orders| == MAX_ORDERS
    && |h.paraSmp| == c.nsmp && |h.paraPat| == c.npat
    && h.s.flags < 0x10000 && h.s.trkvers < 0x10000 && h.s.reserved < 0x10000 && -1 <= h.s.mv < 256
  }

  /** The song fields once the header is stored: title, flags, the initial volumes, speed
      and tempo, the mixing volume before the GUS check, the channels and the order list. */
  function HeadFields(c: Counts, h: Head, prior: Fields): (f: Fields)
    requires |c.title| == 26 && HeadFits(c, h) && WellSized(prior)
    ensures WellSized(f)
  {
    Fields(c.title, if MixingVolume(h.s.mv).1 then {ItOldEffects, NoStereo} else {ItOldEffects},
           GlobalVolume(h.s.gv), Speed(h.s.speed), Tempo(h.s.tempo),
           AdlibCompensation(MixingVolume(h.s.mv).0, h.adlib != {}, h.s.trkvers),
           h.channels, h.orders, prior.samples, prior.patterns, prior.trackerId)
  }

  /** The sample step's writes: the headers placed into slots 1..nsmp, then the GUS check
      that forces the mixing volume to 48 when more than one bit of the or-ed addresses is set. */
  function WithSamples(f: Fields, infos: seq<SampleInfo>, gus: nat): (r: Fields)
    requires WellSized(f) && |infos| < MAX_SAMPLES
    ensures WellSized(r)
  {
    f.(samples := PlaceSamples(f.samples, infos), mixingVolume := if gus > 1 then 48 else f.mixingVolume)
  }

  /** The pattern step's writes: the decoded patterns, then the tracker ID when one is recognised. */
  function WithPatterns(f: Fields, pats: Patterns, tid: Option<string>): (r: Fields)
    requires WellSized(f) && |pats.grids| <= MAX_PATTERNS
    ensures WellSized(r)
  {
    f.(patterns := PlacePatterns(f.patterns, pats.grids), trackerId := if tid.Some? then tid.value else f.trackerId)
  }

  /** The song fields after a successful load: the header, then the sample step, then the
      pattern step, with the tracker fingerprint taken from the header and the sample headers. */
  function SongFields(c: Counts, h: Head, infos: seq<SampleInfo>, pats: Patterns, prior: Fields): (f: Fields)
    requires |infos| == c.nsmp < MAX_SAMPLES && |pats.grids| <= MAX_PATTERNS && WellSized(prior)
    requires |c.title| == 26 && HeadFits(c, h)
    ensures WellSized(f)
  {
    var gus := GusOr(infos, c.nsmp);
    var tid := TrackerId(Fingerprint(h.s.trkvers, h.s.special, h.s.uc, h.s.flags, h.misc, c.nord, gus,
                                     AnySamples(infos, c.nsmp), h.s.reserved));
    WithPatterns(WithSamples(HeadFields(c, h, prior), infos, gus), pats, tid)
  }

  /** What the loader decodes after the header: sample headers, sample data, patterns. */
  function AfterHead(data: seq<byte>, lflags: LoadFlags, c: Counts, h: Head, prior: Fields, imp: Note -> Note)
    : (r: Outcome)
    requires h.pos <= |data| && WellSized(prior) && CountsFit(c) && |c.title| == 26 && HeadFits(c, h)
    ensures WellSized(r.fields) && r.status == LoadSuccess
  {
    var sr := SamplesRun(data, h.paraSmp, h.misc.unsigned, prior.samples[1..], h.pos, c.nsmp);
    var dr := if lflags.noSamples then ([], sr.1) else DataRun(data, sr.0, sr.1, c.nsmp);
    var pats := if lflags.noPatterns then Patterns([], [], dr.1)
                else PatternsRun(data, h.paraPat, h.adlib, imp, dr.1, c.npat);
    Outcome(LoadSuccess, SongFields(c, h, sr.0, pats, prior), dr.0, pats.warnings)
  }

  /** Everything the loader decodes after the counts. */
  function LoadBody(data: seq<byte>, lflags: LoadFlags, c: Counts, pos: nat, prior: Fields, imp: Note -> Note)
    : (r: Outcome)
    requires pos <= |data| && WellSized(prior) && CountsFit(c) && |c.title| == 26
    ensures WellSized(r.fields) && r.status == LoadSuccess
  {
    AfterHead(data, lflags, c, HeadAt(data, c, pos, prior.channels), prior, imp)
  }

  /** LoadBody assembled from the header and the results of the three loops. */
  lemma LoadBodyParts(data: seq<byte>, lflags: LoadFlags, c: Counts, pos: nat, prior: Fields, imp: Note -> Note,
                      h: Head, infos: seq<SampleInfo>, p1: nat, requests: seq<SampleRead>, p2: nat, pats: Patterns)
    requires pos <= |data| && WellSized(prior) && CountsFit(c) && |c.title| == 26
    requires h == HeadAt(data, c, pos, prior.channels)
    requires HeadersRead(data, h.paraSmp, h.misc.unsigned, prior.samples[1..], h.pos, c.nsmp, infos, p1)
    requires if lflags.noSamples then requests == [] && p2 == p1 else DataRead(data, infos, p1, c.nsmp, requests, p2)
    requires if lflags.noPatterns then pats == Patterns([], [], p2)
             else PatternsRead(data, h.paraPat, h.adlib, imp, p2, c.npat, pats)
    ensures LoadBody(data, lflags, c, pos, prior, imp)
         == Outcome(LoadSuccess, SongFields(c, h, infos, pats, prior), requests, pats.warnings)
  {
  }

  /** fmt_s3m_load_song with the corrected tag and count checks: no tag, nothing changes;
      counts out of range, only the title has been read; otherwise the whole song. */
  function Load(data: seq<byte>, lflags: LoadFlags, prior: Fields, imp: Note -> Note): (r: Outcome)
    requires WellSized(prior)
    ensures WellSized(r.fields)
  {
    if Tag(data) != SCRM then Outcome(LoadUnsupported, prior, [], [])
    else
      var cp := CountsAt(data);
      var titled := prior.(title := cp.0.title);
      if !CountsFit(cp.0) then Outcome(LoadFormatError, titled, [], [])
      else LoadBody(data, lflags, cp.0, cp.1, titled, imp)
  }

  /** A loader run that ended with `status`, left `fields` and returned `requests` and
      `warnings` did what Load says for this file and starting song. */
  predicate LoadGives(data: seq<byte>, lflags: LoadFlags, prior: Fields, imp: Note -> Note,
                      status: LoadStatus, fields: Fields, requests: seq<SampleRead>, warnings: seq<nat>)
  {
    WellSized(prior) && Load(data, lflags, prior, imp) == Outcome(status, fields, requests, warnings)
  }

  lemma LoadUntagged(data: seq<byte>, lflags: LoadFlags, prior: Fields, imp: Note -> Note)
    requires WellSized(prior) && Tag(data) != SCRM
    ensures LoadGives(data, lflags, prior, imp, LoadUnsupported, prior, [], [])
  {
  }

  lemma LoadBadCounts(data: seq<byte>, lflags: LoadFlags, prior: Fields, imp: Note -> Note, c: Counts, pos: nat)
    requires WellSized(prior) && Tag(data) == SCRM && (c, pos) == CountsAt(data) && !CountsFit(c)
    ensures LoadGives(data, lflags, prior, imp, LoadFormatError, prior.(title := c.title), [], [])
  {
  }

  lemma LoadDecoded(data: seq<byte>, lflags: LoadFlags, prior: Fields, imp: Note -> Note, c: Counts, pos: nat,
                    titled: Fields, h: Head, infos: seq<SampleInfo>, p1: nat, requests: seq<SampleRead>,
                    p2: nat, pats: Patterns)
    requires WellSized(prior) && Tag(data) == SCRM && (c, pos) == CountsAt(data) && CountsFit(c)
    requires titled == prior.(title := c.title) && h == HeadAt(data, c, pos, titled.channels)
    requires HeadersRead(data, h.paraSmp, h.misc.unsigned, titled.samples[1..], h.pos, c.nsmp, infos, p1)
    requires if lflags.noSamples then requests == [] && p2 == p1 else DataRead(data, infos, p1, c.nsmp, requests, p2)
    requires if lflags.noPatterns then pats == Patterns([], [], p2)
             else PatternsRead(data, h.paraPat, h.adlib, imp, p2, c.npat, pats)
    ensures LoadGives(data, lflags, prior, imp, LoadSuccess, SongFields(c, h, infos, pats, titled),
                      requests, pats.warnings)
  {
    LoadBodyParts(data, lflags, c, pos, titled, imp, h, infos, p1, requests, p2, pats);
  }

  /** The load succeeds exactly on a tagged file with counts in range; it fails without
      touching anything on an untagged one and touches only the title on a bad count. */
  lemma LoadStatusCases(data: seq<byte>, lflags: LoadFlags, prior: Fields, imp: Note -> Note)
    requires WellSized(prior)
    ensures var r := Load(data, lflags, prior, imp);
      && (r.status == LoadSuccess <==> Tag(data) == SCRM && CountsFit(CountsAt(data).0))
      && (r.status == LoadUnsupported <==> Tag(data) != SCRM)
      && (r.status == LoadUnsupported ==> r.fields == prior && r.requests == [] && r.warnings == [])
      && (r.status == LoadFormatError ==> r.fields == prior.(title := CountsAt(data).0.title))
      && r.status != LoadFileError(0)
  {
  }

  /** A successful load is a tagged file with counts in range, decoded by LoadBody. */
  lemma LoadIsBody(data: seq<byte>, lflags: LoadFlags, prior: Fields, imp: Note -> Note)
    requires WellSized(prior)
    requires Load(data, lflags, prior, imp).status == LoadSuccess
    ensures Tag(data) == SCRM && CountsFit(CountsAt(data).0)
    ensures Load(data, lflags, prior, imp)
         == LoadBody(data, lflags, CountsAt(data).0, CountsAt(data).1, prior.(title := CountsAt(data).0.title), imp)
  {
  }

  /** The order list holds the nord bytes at the cursor and ORDER_LAST after them. */
  lemma OrdersFilled(data: seq<byte>, pos: nat, nord: nat)
    requires pos <= |data| && nord <= MAX_ORDERS
    ensures forall i :: nord <= i < MAX_ORDERS ==> OrdersAt(data, pos, nord)[i] == ORDER_LAST
    ensures forall i :: 0 <= i < nord ==> OrdersAt(data, pos, nord)[i] == ByteAt(data, pos + i)
  {
  }

  /** The song fields after a successful load, field by field. */
  lemma SongFieldsFacts(c: Counts, h: Head, infos: seq<SampleInfo>, pats: Patterns, prior: Fields)
    requires |infos| == c.nsmp < MAX_SAMPLES && |pats.grids| <= MAX_PATTERNS && WellSized(prior)
    requires |c.title| == 26 && HeadFits(c, h)
    ensures var f := SongFields(c, h, infos, pats, prior);
      && ItOldEffects in f.flags && (NoStereo in f.flags <==> 0 <= h.s.mv < 128)
      && f.tempo > 32 && f.speed != 0 && f.title == c.title && f.orderlist == h.orders
      && f.channels == h.channels
      && (forall i :: |infos| < i < MAX_SAMPLES ==> f.samples[i] == prior.samples[i])
      && f.samples[0] == prior.samples[0]
      && (forall i :: |pats.grids| <= i < MAX_PATTERNS ==> f.patterns[i] == prior.patterns[i])
  {
  }

  /** What a successful load promises about the song fields `f` it leaves: SONG_ITOLDEFFECTS
      is set and SONG_NOSTEREO says whether the mixing volume byte had bit 7 clear; the tempo
      is above 32, the speed nonzero; the order list holds the file's nord order bytes and
      ORDER_LAST after them; slot 0 and every slot past nsmp keep their samples, and every
      pattern past npat keeps its pattern. */
  predicate LoadedFacts(data: seq<byte>, prior: Fields, f: Fields)
    requires WellSized(prior)
  {
    var c := CountsAt(data).0;
    var p := CountsAt(data).1;
    var mv := ScalarsAt(data, p).0.mv;
    var q := AfterRead(data, ScalarsAt(data, p).1, 32);
    && CountsFit(c) && WellSized(f)
    && ItOldEffects in f.flags && (NoStereo in f.flags <==> 0 <= mv < 128)
    && f.tempo > 32 && f.speed != 0 && f.title == c.title
    && (forall i :: c.nord <= i < MAX_ORDERS ==> f.orderlist[i] == ORDER_LAST)
    && (forall i :: 0 <= i < c.nord ==> f.orderlist[i] == ByteAt(data, q + i))
    && (forall i :: c.nsmp < i < MAX_SAMPLES ==> f.samples[i] == prior.samples[i])
    && f.samples[0] == prior.samples[0]
    && (forall i :: c.npat <= i < MAX_PATTERNS ==> f.patterns[i] == prior.patterns[i])
  }

  /** LoadedFacts holds of the fields assembled from the file's header and any results of
      the three loops. */
  lemma SongFieldsLoaded(data: seq<byte>, prior: Fields, infos: seq<SampleInfo>, pats: Patterns,
                         c: Counts, p: nat, titled: Fields, h: Head)
    requires WellSized(prior) && (c, p) == CountsAt(data) && CountsFit(c)
    requires titled == prior.(title := c.title) && HeadFits(c, h)
    requires h.s == ScalarsAt(data, p).0
    requires h.orders == OrdersAt(data, AfterRead(data, ScalarsAt(data, p).1, 32), c.nord)
    requires |infos| == c.nsmp && |pats.grids| <= c.npat
    ensures LoadedFacts(data, prior, SongFields(c, h, infos, pats, titled))
  {
    SongFieldsFacts(c, h, infos, pats, titled);
    OrdersFilled(data, AfterRead(data, ScalarsAt(data, p).1, 32), c.nord);
  }

  /** The scalars and the order list of the head are those read at the cursor. */
  lemma HeadAtParts(data: seq<byte>, c: Counts, pos: nat, prev: seq<Channel>)
    requires pos <= |data| && c.nord <= MAX_ORDERS && |prev| == MAX_CHANNELS
    ensures HeadAt(data, c, pos, prev).s == ScalarsAt(data, pos).0
    ensures HeadAt(data, c, pos, prev).orders == OrdersAt(data, AfterRead(data, ScalarsAt(data, pos).1, 32), c.nord)
  {
  }

  /** The promises of a successful load hold of the song it leaves. */
  lemma LoadedSong(data: seq<byte>, lflags: LoadFlags, prior: Fields, imp: Note -> Note)
    requires WellSized(prior)
    requires Load(data, lflags, prior, imp).status == LoadSuccess
    ensures LoadedFacts(data, prior, Load(data, lflags, prior, imp).fields)
  {
    var c := CountsAt(data).0;
    var p := CountsAt(data).1;
    LoadIsBody(data, lflags, prior, imp);
    var titled := prior.(title := c.title);
    var h := HeadAt(data, c, p, titled.channels);
    var sr := SamplesRun(data, h.paraSmp, h.misc.unsigned, titled.samples[1..], h.pos, c.nsmp);
    var dr := if lflags.noSamples then ([], sr.1) else DataRun(data, sr.0, sr.1, c.nsmp);
    var pats := if lflags.noPatterns then Patterns([], [], dr.1)
                else PatternsRun(data, h.paraPat, h.adlib, imp, dr.1, c.npat);
    LoadBodyParts(data, lflags, c, p, titled, imp, h, sr.0, sr.1, dr.0, dr.1, pats);
    HeadAtParts(data, c, p, titled.channels);
    SongFieldsLoaded(data, prior, sr.0, pats, c, p, titled, h);
  }
}
