/** The parts of the song data model (`song_t`, `song_sample_t`, `song_note_t`,
    `song_channel_t`) that the loaders and the song resets read and write.

    The header that defines them (sndfile.h) is not part of this model; the limits
    and note codes below are the values Schism Tracker uses. */
module SongModel {
  import opened Bytes

  const MAX_SAMPLES: nat := 236
  const MAX_INSTRUMENTS: nat := 236
  const MAX_PATTERNS: nat := 240
  const MAX_ORDERS: nat := 256
  const MAX_CHANNELS: nat := 64

  /** The order list's end-of-song marker. */
  const ORDER_LAST: byte := 255

  const NOTE_NONE: byte := 0
  const NOTE_FIRST: byte := 1
  const NOTE_LAST: byte := 120
  const NOTE_CUT: byte := 254
  const NOTE_OFF: byte := 255

  /** Effect numbers the S3M loader tests after importing an effect. */
  const FX_NONE: byte := 0
  const FX_SPECIAL: byte := 19

  /** The volume-column command of a cell. */
  datatype VolEffect = VolNone | VolVolume | VolPanning

  /** One pattern cell. */
  datatype Note = Note(note: byte, instrument: byte, volEffect: VolEffect, volParam: byte,
                       effect: byte, param: byte)

  const BLANK_NOTE: Note := Note(0, 0, VolNone, 0, 0, 0)

  /** A freshly allocated pattern of `rows` rows: `rows * 64` blank cells. */
  function BlankPattern(rows: nat): (r: seq<Note>)
    ensures |r| == rows * MAX_CHANNELS
    ensures forall i :: 0 <= i < |r| ==> r[i] == BLANK_NOTE
  {
    seq(rows * MAX_CHANNELS, _ => BLANK_NOTE)
  }

  /** A channel's settings; `mute` is CHN_MUTE in its flags. */
  datatype Channel = Channel(panning: int, volume: int, mute: bool)

  /** The sample flags the modelled code reads or writes. */
  datatype SampleFlag = Loop | SixteenBit | Stereo | Adlib

  /** A sample slot; `data` is the PCM (or placeholder) buffer, None when the pointer is NULL. */
  datatype Sample = Sample(filename: seq<byte>, name: seq<byte>, length: int, loopStart: int,
                           loopEnd: int, volume: int, globalVolume: int, c5speed: int,
                           flags: set<SampleFlag>, vibType: int, vibRate: int, vibDepth: int,
                           vibSpeed: int, adlibBytes: seq<byte>, data: Option<seq<byte>>)

  /** A sample slot after `memset(.., 0, sizeof(song_sample_t))`. */
  const ZERO_SAMPLE: Sample :=
    Sample(Zeros(13), Zeros(26), 0, 0, 0, 0, 0, 0, {}, 0, 0, 0, 0, Zeros(12), None)

  /** The outcome of a format loader (`LOAD_*`); FILE_ERROR carries the errno it left. */
  datatype LoadStatus = LoadSuccess | LoadUnsupported | LoadFormatError | LoadFileError(errno: int)

  /** The song flags the modelled code sets. */
  datatype SongFlag = ItOldEffects | NoStereo

  /** A voice's settings as `song_new` initialises them from its channel. */
  datatype Voice = Voice(volume: int, globalVolume: int, panning: int, mute: bool, cutoff: int)

  /** The size of an instrument's note and sample maps (`song_load_instrument_ex` walks 128 entries). */
  const MAP_SIZE: nat := 128

  /** Envelope flag bits of an instrument (`ENV_*`); any other bit is `OtherFlag`. */
  datatype EnvFlag = EnvVolume | EnvVolSustain | EnvVolLoop | EnvVolCarry
                   | EnvPanning | EnvPanSustain | EnvPanLoop | EnvPanCarry | EnvSetPanning
                   | EnvPitch | EnvPitchSustain | EnvPitchLoop | EnvPitchCarry | EnvFilter
                   | OtherFlag(bit: nat)

  /** `song_instrument_t`: its name, note translation table and flags. */
  class Instrument {
    var name: seq<byte>
    const noteMap: array<byte>
    const sampleMap: array<byte>
    var flags: set<EnvFlag>

    ghost predicate Valid()
      reads this
    {
      noteMap.Length == MAP_SIZE && sampleMap.Length == MAP_SIZE && noteMap != sampleMap
    }

    constructor (name0: seq<byte>, notes: seq<byte>, samples: seq<byte>, flags0: set<EnvFlag>)
      requires |notes| == MAP_SIZE && |samples| == MAP_SIZE
      ensures Valid() && fresh(noteMap) && fresh(sampleMap)
      ensures name == name0 && noteMap[..] == notes && sampleMap[..] == samples && flags == flags0
    {
      name := name0;
      noteMap := new byte[MAP_SIZE](i requires 0 <= i < MAP_SIZE => notes[i]);
      sampleMap := new byte[MAP_SIZE](i requires 0 <= i < MAP_SIZE => samples[i]);
      flags := flags0;
    }
  }

  /** The capacity of an envelope's node arrays. */
  const ENV_CAPACITY: nat := 32

  /** `song_envelope_t`: node ticks and values, node count, loop and sustain node indices. */
  class Envelope {
    const ticks: array<int>
    const values: array<byte>
    var nodes: int
    var loopStart: int
    var loopEnd: int
    var sustainStart: int
    var sustainEnd: int

    ghost predicate Valid()
      reads this
    {
      ticks.Length == ENV_CAPACITY && values.Length == ENV_CAPACITY
    }

    constructor (t: seq<int>, v: seq<byte>, n: int, ls: int, le: int, ss: int, se: int)
      requires |t| == ENV_CAPACITY && |v| == ENV_CAPACITY
      ensures Valid() && fresh(ticks) && fresh(values)
      ensures ticks[..] == t && values[..] == v && nodes == n
      ensures loopStart == ls && loopEnd == le && sustainStart == ss && sustainEnd == se
    {
      ticks := new int[ENV_CAPACITY](i requires 0 <= i < ENV_CAPACITY => t[i]);
      values := new byte[ENV_CAPACITY](i requires 0 <= i < ENV_CAPACITY => v[i]);
      nodes, loopStart, loopEnd, sustainStart, sustainEnd := n, ls, le, ss, se;
    }
  }

  /** `song_t`: the fields the loaders and the song resets touch. */
  class Song {
    var title: seq<byte>
    var message: string
    var flags: set<SongFlag>
    var initialGlobalVolume: int
    var initialSpeed: int
    var initialTempo: int
    var mixingVolume: int
    var channels: seq<Channel>
    var voices: seq<Voice>
    var orderlist: seq<byte>
    var samples: seq<Sample>
    var instruments: seq<Instrument?>
    var patterns: seq<Option<seq<Note>>>
    var patternSize: seq<int>
    var patternAllocSize: seq<int>
    var trackerId: string
    var stopAtOrder: int
    var stopAtRow: int
    var repeatCount: int
    /** The file-level `song_filename` and `song_basename`, kept with the song they name. */
    var filename: string
    var basename: string

    ghost predicate Valid()
      reads this
    {
      |title| == 26 && |channels| == MAX_CHANNELS && |voices| == MAX_CHANNELS
      && |orderlist| == MAX_ORDERS && |samples| == MAX_SAMPLES && |instruments| == MAX_INSTRUMENTS
      && |patterns| == MAX_PATTERNS && |patternSize| == MAX_PATTERNS && |patternAllocSize| == MAX_PATTERNS
    }

    /** csf_allocate is not part of this model: the new song is taken to be empty, with
        64-row pattern sizes, zeroed samples and no instruments or patterns. */
    constructor ()
      ensures Valid() && message == "" && trackerId == ""
      ensures forall i :: 0 <= i < MAX_SAMPLES ==> samples[i] == ZERO_SAMPLE
      ensures forall i :: 0 <= i < MAX_PATTERNS ==> patterns[i].None?
      ensures forall i :: 0 <= i < MAX_INSTRUMENTS ==> instruments[i] == null
    {
      title := Zeros(26);
      message := "";
      flags := {};
      initialGlobalVolume, initialSpeed, initialTempo, mixingVolume := 0, 0, 0, 0;
      channels := seq(MAX_CHANNELS, _ => Channel(0, 0, false));
      voices := seq(MAX_CHANNELS, _ => Voice(0, 0, 0, false, 0));
      orderlist := seq(MAX_ORDERS, _ => ORDER_LAST);
      samples := seq(MAX_SAMPLES, _ => ZERO_SAMPLE);
      instruments := seq(MAX_INSTRUMENTS, _ => null);
      patterns := seq(MAX_PATTERNS, _ => None);
      patternSize := seq(MAX_PATTERNS, _ => 64);
      patternAllocSize := seq(MAX_PATTERNS, _ => 64);
      trackerId := "";
      filename, basename := "", "";
      stopAtOrder, stopAtRow, repeatCount := 0, 0, 0;
    }
  }
}
