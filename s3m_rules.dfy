/** The value rules of the Scream Tracker 3 loader (fmt/s3m.c): how each byte the
    loader reads becomes a song field, a pattern cell, or the tracker identification. */
module S3mRules {
  import opened Bytes
  import opened SongModel

  // ---------------------------------------------------------------------------
  // Header scalars. The arguments are `slurp_getc` results: a byte, or EOF (-1).

  /** `initial_global_volume = gv << 1`. */
  function GlobalVolume(gv: int): (r: int)
    ensures 0 <= gv < 256 ==> 0 <= r <= 510 && r % 2 == 0 && r / 2 == gv
  {
    gv * 2
  }

  /** `initial_speed = getc ?: 6`: a zero speed is replaced by 6. */
  function Speed(b: int): (r: int)
    ensures r != 0
    ensures b != 0 ==> r == b
    ensures b == 0 ==> r == 6
  {
    if b == 0 then 6 else b
  }

  /** Tempos up to 32 are replaced by 125, so the result is always above 32. */
  function Tempo(b: int): (r: int)
    ensures r > 32
    ensures b > 32 ==> r == b
    ensures b <= 32 ==> r == 125
  {
    if b <= 32 then 125 else b
  }

  /** The mixing volume and whether SONG_NOSTEREO is set: bit 7 set means stereo and is
      cleared, a clear bit 7 means mono. EOF has every bit set. */
  function MixingVolume(b: int): (r: (int, bool))
    requires -1 <= b < 256
    ensures 0 <= b < 256 ==> r.0 == b % 128 && (r.1 <==> b < 128)
  {
    if b >= 128 || b == -1 then (b - 128, false) else (b, true)
  }

  /** Schism Tracker versions 0x4000 ..< 0x4D33 played AdLib loud: `mv * 2274 / 4096`. */
  function AdlibCompensation(mv: int, anyAdlib: bool, trkvers: nat): (r: int)
    ensures !(anyAdlib && 0x4000 <= trkvers < 0x4D33) ==> r == mv
    ensures 0 <= mv && anyAdlib && 0x4000 <= trkvers < 0x4D33 ==> 0 <= r <= mv
  {
    if anyAdlib && 0x4000 <= trkvers < 0x4D33 then CDiv(mv * 2274, 4096) else mv
  }

  // ---------------------------------------------------------------------------
  // Channels

  datatype ChannelKind = LeftPcm | RightPcm | AdlibChannel | Disabled

  /** The channel type with the mute bit removed: L1-L8, R1-R8, A1-A9, or anything else. */
  function KindOf(c: byte): ChannelKind {
    var t := c % 128;
    if t < 0x08 then LeftPcm
    else if t < 0x10 then RightPcm
    else if t < 0x19 then AdlibChannel
    else Disabled
  }

  function DefaultPanning(k: ChannelKind): (p: int)
    ensures 0 <= p <= 50
  {
    match k
    case LeftPcm => 14
    case RightPcm => 50
    case _ => 32
  }

  /** One of the 32 stored channel settings applied to the channel's previous state:
      panning from the kind, volume 64, and CHN_MUTE added for bit 7 or a disabled type. */
  function ChannelSetting(prev: Channel, c: byte): (ch: Channel)
    ensures ch.volume == 64
    ensures ch.mute <==> prev.mute || c >= 128 || KindOf(c) == Disabled
    ensures ch.panning == DefaultPanning(KindOf(c))
  {
    var k := KindOf(c);
    Channel(DefaultPanning(k), 64, prev.mute || c >= 128 || k == Disabled)
  }

  /** Channels 32 to 63: centred, full volume, flags exactly CHN_MUTE. */
  const UNUSED_CHANNEL: Channel := Channel(32, 64, true)

  /** A stored default panning replaces the channel's when bit 5 is set, except on AdLib
      channels of files from ST 3.20 and older. */
  function StoredPanning(c: byte, pan: int, adlibChannel: bool, trkvers: nat): (r: int)
    ensures HasBit(c, 0x20) && (!adlibChannel || trkvers > 0x1320) ==> r == (c % 16) * 4 + 2 && 2 <= r <= 62
    ensures !(HasBit(c, 0x20) && (!adlibChannel || trkvers > 0x1320)) ==> r == pan
  {
    if HasBit(c, 0x20) && (!adlibChannel || trkvers > 0x1320) then (c % 16) * 4 + 2 else pan
  }

  // ---------------------------------------------------------------------------
  // Sample headers

  const S3I_TYPE_NONE: byte := 0
  const S3I_TYPE_PCM: byte := 1
  const S3I_TYPE_ADMEL: byte := 2

  /** The PCM data parapointer from the three `memseg` bytes: b[1] | b[2] << 8 | b[0] << 16. */
  function PcmPointer(b: seq<byte>): (r: nat)
    requires |b| == 3
    ensures r < 0x100_0000
    ensures r % 0x10000 == b[1] as int + 256 * (b[2] as int) && r / 0x10000 == b[0] as int
  {
    var low := b[1] as int + 256 * (b[2] as int);
    DivModUnique(low + 0x10000 * (b[0] as int), 0x10000, b[0] as int, low);
    low + 0x10000 * (b[0] as int)
  }

  /** The sample format handed to the sample reader: always little-endian, signedness from
      the file format field, 16-bit from flag 4, stereo from flag 2. */
  datatype PcmFormat = PcmFormat(unsigned: bool, sixteenBit: bool, stereo: bool)

  function FormatOf(flags: byte, unsigned: bool): (f: PcmFormat)
    ensures f.unsigned == unsigned && f.sixteenBit == HasBit(flags, 4) && f.stereo == HasBit(flags, 2)
  {
    PcmFormat(unsigned, HasBit(flags, 4), HasBit(flags, 2))
  }

  /** AdLib sample speeds outside [1000, 0xFFFF] become 8363. */
  function AdlibSpeed(c5: nat): (r: nat)
    ensures 1000 <= r <= 0xFFFF
    ensures 1000 <= c5 <= 0xFFFF ==> r == c5
  {
    if c5 < 1000 || c5 > 0xFFFF then 8363 else c5
  }

  // ---------------------------------------------------------------------------
  // Pattern cells

  /** A stored note byte: 255 is no note, 254 a note-off on AdLib channels and a note-cut
      otherwise, anything else octave (high nibble) and semitone (low nibble). */
  function NoteCode(n: byte, adlibChannel: bool): (r: byte)
    ensures n == 255 ==> r == NOTE_NONE
    ensures n == 254 ==> r == (if adlibChannel then NOTE_OFF else NOTE_CUT)
    ensures n < 254 ==> 13 <= r <= 206
  {
    if n == 255 then NOTE_NONE
    else if n == 254 then (if adlibChannel then NOTE_OFF else NOTE_CUT)
    else (n / 16) * 12 + n % 16 + 13
  }

  /** The largest byte that is not a marker, 0xFD, decodes to 206: the bound of NoteCode is
      reached, and no range check brings it back into the playable notes 1..120. */
  lemma NoteCodeMaximum(adlibChannel: bool)
    ensures NoteCode(0xFD, adlibChannel) == 206
    ensures forall n: byte :: n < 254 ==> NoteCode(n, adlibChannel) <= NoteCode(0xFD, adlibChannel)
    ensures NoteCode(0xFD, adlibChannel) > 120
  {
  }

  /** The S3M note byte of a note number 13 ..< 205: octave nibble and semitone nibble. */
  function NoteByte(note: nat): (b: byte)
    requires 13 <= note < 13 + 12 * 16
  {
    DivBelow(note - 13, 12, 16);
    ((note - 13) / 12) * 16 + (note - 13) % 12
  }

  /** Every note number an S3M note byte with a semitone below 12 can denote decodes back
      from its byte: the octave/semitone split is a bijection. */
  lemma NoteRoundTrip(note: nat, adlibChannel: bool)
    requires 13 <= note < 13 + 12 * 16
    ensures NoteByte(note) < 254 && NoteByte(note) % 16 < 12
    ensures NoteCode(NoteByte(note), adlibChannel) == note
  {
    var o, s := (note - 13) / 12, (note - 13) % 12;
    DivBelow(note - 13, 12, 16);
    var b := o * 16 + s;
    DivModUnique(b, 16, o, s);
    assert NoteByte(note) == b;
  }

  /** The volume column: 255 is empty, 128..192 is a panning of 0..64, values above 64 are
      clamped to volume 64. */
  function VolumeColumn(v: byte): (r: (VolEffect, byte))
    ensures r.1 <= 64
    ensures r.0 == VolNone <==> v == 255
    ensures r.0 == VolPanning <==> 128 <= v <= 192
    ensures r.0 == VolPanning ==> r.1 == v - 128
    ensures r.0 == VolVolume ==> r.1 == Min(v, 64)
  {
    if v == 255 then (VolNone, 0)
    else if 128 <= v <= 192 then (VolPanning, v - 128)
    else if v > 64 then (VolVolume, 64)
    else (VolVolume, v)
  }

  /** ST3's SD0 and SC0: a note delay of 0 erases the cell, a note cut of 0 drops the effect. */
  function SpecialCleanup(cell: Note): (r: Note)
    ensures cell.effect == FX_SPECIAL && cell.param == 0xD0 ==> r == BLANK_NOTE
    ensures cell.effect == FX_SPECIAL && cell.param == 0xC0 ==> r == cell.(effect := FX_NONE, param := 0)
    ensures !(cell.effect == FX_SPECIAL && (cell.param == 0xD0 || cell.param == 0xC0)) ==> r == cell
  {
    if cell.effect == FX_SPECIAL then
      if cell.param == 0xD0 then Note(NOTE_NONE, 0, VolNone, 0, FX_NONE, 0)
      else if cell.param == 0xC0 then cell.(effect := FX_NONE, param := 0)
      else cell
    else cell
  }

  // ---------------------------------------------------------------------------
  // Tracker identification

  /** The loader's temporary flags: S3M_UNSIGNED (file format info is not 1) and
      S3M_CHANPAN (the default-panning byte is 0xFC). */
  datatype Misc = Misc(unsigned: bool, chanPan: bool)

  /** What the header tells about the tool that wrote the file. */
  datatype Fingerprint = Fingerprint(trkvers: nat, special: nat, uc: int, flags: nat, misc: Misc,
                                     nord: nat, gusAddresses: nat, anySamples: bool, reserved: nat)

  function HexDigit(d: nat): char
    requires d < 16
  {
    if d < 10 then ('0' as int + d) as char else ('a' as int + d - 10) as char
  }

  function HexValue(c: char): int {
    if '0' <= c <= '9' then c as int - '0' as int
    else if 'a' <= c <= 'f' then c as int - 'a' as int + 10
    else -1
  }

  /** `%02x` */
  function Hex2(b: nat): (s: string)
    requires b < 256
    ensures |s| == 2
  {
    DivBelow(b, 16, 16);
    [HexDigit(b / 16), HexDigit(b % 16)]
  }

  /** `%d` of a natural number. */
  function Dec(n: nat): (s: string)
    ensures 1 <= |s| && forall i :: 0 <= i < |s| ==> '0' <= s[i] <= '9'
    decreases n
  {
    var d := ('0' as int + n % 10) as char;
    if n < 10 then [d] else Dec(n / 10) + [d]
  }

  function DecValue(s: string): int
    decreases |s|
  {
    if |s| == 0 then 0 else DecValue(s[..|s| - 1]) * 10 + (s[|s| - 1] as int - '0' as int)
  }

  /** `%d` and `%02x` can be read back: the printed version numbers are the ones in the file. */
  lemma {:induction false} DecRoundTrip(n: nat)
    ensures DecValue(Dec(n)) == n
    decreases n
  {
    var d := ('0' as int + n % 10) as char;
    if n >= 10 {
      DecRoundTrip(n / 10);
      assert Dec(n)[..|Dec(n)| - 1] == Dec(n / 10);
    }
  }

  lemma Hex2RoundTrip(b: nat)
    requires b < 256
    ensures HexValue(Hex2(b)[0]) * 16 + HexValue(Hex2(b)[1]) == b
  {
    DivBelow(b, 16, 16);
  }

  /** The version part of every template: `(trkvers & 0xf00) >> 8` and `%02x` of the low byte. */
  function Version(trkvers: nat): string
    requires trkvers < 0x10000
  {
    Dec((trkvers / 256) % 16) + "." + Hex2(trkvers % 256)
  }

  predicate ModplugPrint(f: Fingerprint)
    requires f.flags < 0x10000
  {
    f.special == 0 && f.uc == 0 && (f.flags as bv16) & !0x50 == 0
    && f.misc == Misc(true, true) && f.nord % 16 == 0
  }

  predicate VelvetPrint(f: Fingerprint) {
    f.special == 0 && f.uc == 0 && f.flags == 0 && f.misc == Misc(true, false)
  }

  /** The tracker ID the loader writes, or None when it leaves `tracker_id` as it was
      (version bands 0 and 6 to 15). */
  function TrackerId(f: Fingerprint): (r: Option<string>)
    requires f.trkvers < 0x10000 && f.flags < 0x10000 && f.reserved < 0x10000
  {
    var v := Version(f.trkvers);
    if f.trkvers == 0x1320 && ModplugPrint(f) then Some("Modplug Tracker")
    else if f.trkvers == 0x1320 && VelvetPrint(f) then Some("Velvet Studio")
    else if f.trkvers == 0x1320 && f.uc != 16 && f.uc != 24 && f.uc != 32 then Some("Unknown tracker")
    else
      var band := f.trkvers / 0x1000;
      if band == 1 then
        if f.gusAddresses > 1 then Some("Scream Tracker " + v + " (GUS)")
        else if f.gusAddresses == 1 || !f.anySamples || f.trkvers == 0x1300 then Some("Scream Tracker " + v + " (SB)")
        else Some("Unknown tracker")
      else if band == 2 then Some("Imago Orpheus " + v)
      else if band == 3 then
        if f.trkvers <= 0x3214 then Some("Impulse Tracker " + v)
        else Some("Impulse Tracker 2.14p" + Dec(f.trkvers - 0x3214))
      else if band == 4 then Some("Schism Tracker ")
      else if band == 5 then
        if f.trkvers >= 0x5129 && f.reserved != 0 then
          Some("OpenMPT " + v + "." + Hex2((f.reserved / 256) % 256) + "." + Hex2(f.reserved % 256))
        else Some("OpenMPT " + v)
      else None
  }

  /** The identification is total on bands 1 to 5 and absent elsewhere; Modplug and Velvet
      fingerprints win on 0x1320, and otherwise an ultraclick value ST 3.2x never writes
      marks the file as unknown. */
  lemma TrackerBands(f: Fingerprint)
    requires f.trkvers < 0x10000 && f.flags < 0x10000 && f.reserved < 0x10000
    ensures TrackerId(f).Some? <==> 1 <= f.trkvers / 0x1000 <= 5
    ensures f.trkvers == 0x1320 && ModplugPrint(f) ==> TrackerId(f) == Some("Modplug Tracker")
    ensures f.trkvers == 0x1320 && !ModplugPrint(f) && VelvetPrint(f) ==> TrackerId(f) == Some("Velvet Studio")
    ensures f.trkvers == 0x1320 && !ModplugPrint(f) && !VelvetPrint(f) && f.uc != 16 && f.uc != 24 && f.uc != 32
            ==> TrackerId(f) == Some("Unknown tracker")
    ensures f.trkvers / 0x1000 == 3 && f.trkvers > 0x3214 ==>
            TrackerId(f) == Some("Impulse Tracker 2.14p" + Dec(f.trkvers - 0x3214))
  {
    assert f.trkvers == 0x1320 ==> f.trkvers / 0x1000 == 1;
  }

  /** The patch level of an Impulse Tracker 2.14 patch is recoverable from the ID. */
  lemma ImpulsePatchLevel(f: Fingerprint)
    requires f.trkvers < 0x10000 && f.flags < 0x10000 && f.reserved < 0x10000
    requires f.trkvers / 0x1000 == 3 && f.trkvers > 0x3214
    ensures TrackerId(f).Some?
    ensures var s := TrackerId(f).value;
      s[..21] == "Impulse Tracker 2.14p" && DecValue(s[21..]) == f.trkvers - 0x3214
  {
    var s := TrackerId(f).value;
    assert s == "Impulse Tracker 2.14p" + Dec(f.trkvers - 0x3214);
    assert s[21..] == Dec(f.trkvers - 0x3214);
    DecRoundTrip(f.trkvers - 0x3214);
  }
}
