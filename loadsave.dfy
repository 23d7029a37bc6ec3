/** The song-level routines of schism/audio_loadsave.c: the loader probe loop, the song
    reset, the name repair, the message newline rewrite, sample clearing and copying, the
    sample sweep before an instrument load, and the instrument loader's sample-slot allocator. */
module LoadSave {
  import opened Bytes
  import opened SongModel

  // ---------------------------------------------------------------------------
  // _fix_names

  /** A name after the repair: NULs in positions 0..24 become spaces and byte 25 is 0. */
  function FixName(name: seq<byte>): (r: seq<byte>)
    requires |name| >= 26
    ensures |r| == |name|
    ensures forall i :: 0 <= i < 25 && name[i] != 0 ==> r[i] == name[i]
    ensures forall i :: 26 <= i < |name| ==> r[i] == name[i]
    ensures NameFixed(r)
  {
    seq(|name|, i requires 0 <= i < |name| => if i < 25 && name[i] == 0 then 32 else if i == 25 then 0 else name[i])
  }

  /** No NUL in positions 0..24, and byte 25 terminates the name. */
  predicate NameFixed(name: seq<byte>) {
    |name| >= 26 && name[25] == 0 && forall i :: 0 <= i < 25 ==> name[i] != 0
  }

  lemma FixNameFixes(name: seq<byte>)
    requires |name| >= 26
    ensures NameFixed(FixName(name))
    ensures NameFixed(name) ==> FixName(name) == name
  {
  }

  /** Repairing twice repairs once: an instrument reachable from two slots ends up the same. */
  lemma FixNameIdempotent(name: seq<byte>)
    requires |name| >= 26
    ensures FixName(FixName(name)) == FixName(name)
  {
    FixNameFixes(name);
    FixNameFixes(FixName(name));
  }

  /** The inner `for (c = 0; c < 25; c++)` loop and the store to byte 25. */
  method FixNameBytes(name: seq<byte>) returns (r: seq<byte>)
    requires |name| >= 26
    ensures r == FixName(name)
  {
    r := name;
    var c := 0;
    while c < 25
      invariant 0 <= c <= 25 && |r| == |name|
      invariant forall i :: 0 <= i < c ==> r[i] == FixName(name)[i]
      invariant forall i :: c <= i < |name| ==> r[i] == name[i]
    {
      if r[c] == 0 {
        r := r[c := 32];
      }
      c := c + 1;
    }
    r := r[25 := 0];
  }

  /** The instruments a song's slots point at. */
  ghost function InstrumentSet(song: Song): set<Instrument>
    reads song
  {
    set q | 0 <= q < |song.instruments| && song.instruments[q] != null :: song.instruments[q]
  }

  /** Every name the repair touches is long enough to hold bytes 0..25. */
  ghost predicate NamesSized(song: Song)
    reads song, InstrumentSet(song)
  {
    song.Valid()
    && (forall n :: 1 <= n < MAX_INSTRUMENTS ==> |song.samples[n].name| >= 26)
    && (forall n :: 1 <= n < MAX_INSTRUMENTS && song.instruments[n] != null ==> |song.instruments[n].name| >= 26)
  }

  /** _fix_names: slots 1..MAX_INSTRUMENTS-1 of both tables get their names repaired.
      An instrument object reached from several slots is repaired once per slot, which is
      the same as once. */
  method FixNames(song: Song)
    requires NamesSized(song)
    modifies song`samples, InstrumentSet(song)
    ensures song.Valid() && song.instruments == old(song.instruments)
    ensures forall n :: 1 <= n < MAX_INSTRUMENTS ==> song.samples[n] == old(song.samples[n]).(name := FixName(old(song.samples[n].name)))
    ensures song.samples[0] == old(song.samples[0])
    ensures forall n :: 1 <= n < MAX_INSTRUMENTS && song.instruments[n] != null ==>
      song.instruments[n].name == FixName(old(song.instruments[n].name))
    ensures forall n :: 1 <= n < MAX_INSTRUMENTS ==> NameFixed(song.samples[n].name)
    ensures forall n :: 1 <= n < MAX_INSTRUMENTS && song.instruments[n] != null ==> NameFixed(song.instruments[n].name)
  {
    var n := 1;
    while n < MAX_INSTRUMENTS
      invariant 1 <= n <= MAX_INSTRUMENTS && song.Valid() && song.instruments == old(song.instruments)
      invariant forall k :: 1 <= k < n ==> song.samples[k] == old(song.samples[k]).(name := FixName(old(song.samples[k].name)))
      invariant forall k :: n <= k < MAX_SAMPLES || k == 0 ==> song.samples[k] == old(song.samples[k])
      invariant forall k :: 1 <= k < MAX_INSTRUMENTS && song.instruments[k] != null ==>
        |song.instruments[k].name| >= 26
        && (song.instruments[k].name == old(song.instruments[k].name)
            || song.instruments[k].name == FixName(old(song.instruments[k].name)))
      invariant forall k :: 1 <= k < n && song.instruments[k] != null ==>
        song.instruments[k].name == FixName(old(song.instruments[k].name))
    {
      var fixed := FixNameBytes(song.samples[n].name);
      song.samples := song.samples[n := song.samples[n].(name := fixed)];
      var inst := song.instruments[n];
      if inst != null {
        FixNameIdempotent(old(inst.name));
        inst.name := FixNameBytes(inst.name);
      }
      n := n + 1;
    }
  }

  // ---------------------------------------------------------------------------
  // message_convert_newlines

  /** The song message with every '\n' replaced by '\r' (IT's line separator). */
  function ConvertNewlines(m: string): (r: string)
    ensures |r| == |m|
  {
    seq(|m|, i requires 0 <= i < |m| => if m[i] == '\n' then '\r' else m[i])
  }

  /** After the rewrite no '\n' is left, and nothing but '\n' changed. */
  lemma ConvertNewlinesFacts(m: string)
    ensures forall i :: 0 <= i < |m| ==> ConvertNewlines(m)[i] != '\n'
    ensures forall i :: 0 <= i < |m| && m[i] != '\n' ==> ConvertNewlines(m)[i] == m[i]
    ensures (forall i :: 0 <= i < |m| ==> m[i] != '\n') ==> ConvertNewlines(m) == m
  {
  }

  lemma ConvertNewlinesIdempotent(m: string)
    ensures ConvertNewlines(ConvertNewlines(m)) == ConvertNewlines(m)
  {
    ConvertNewlinesFacts(ConvertNewlines(m));
    ConvertNewlinesFacts(m);
  }

  /** message_convert_newlines: the in-place loop over the message. */
  method ConvertMessage(song: Song)
    modifies song`message
    ensures song.message == ConvertNewlines(old(song.message))
  {
    var i := 0;
    while i < |song.message|
      invariant 0 <= i <= |song.message| && |song.message| == |old(song.message)|
      invariant forall k :: 0 <= k < i ==> song.message[k] == ConvertNewlines(old(song.message))[k]
      invariant forall k :: i <= k < |song.message| ==> song.message[k] == old(song.message)[k]
    {
      if song.message[i] == '\n' {
        song.message := song.message[i := '\r'];
      }
      i := i + 1;
    }
  }

  // ---------------------------------------------------------------------------
  // song_create_load

  /** The `err` of the probe loop: 0, -LOAD_UNSUPPORTED, -LOAD_FORMAT_ERROR, or the errno
      a loader left with LOAD_FILE_ERROR. */
  datatype LoadError = NoError | Unsupported | FormatError | Errno(code: int)

  /** A loader status after which the loop goes on to the next loader: UNSUPPORTED, and
      FILE_ERROR with errno 0 (err is then 0, so the `if (err)` exit is not taken). */
  predicate Declines(s: LoadStatus) {
    s == LoadUnsupported || s == LoadFileError(0)
  }

  /** The `err` a status leaves. */
  function ErrOf(s: LoadStatus): LoadError {
    match s
    case LoadSuccess => NoError
    case LoadUnsupported => Unsupported
    case LoadFormatError => FormatError
    case LoadFileError(e) => if e == 0 then NoError else Errno(e)
  }

  /** The probe loop over the loaders' outcomes in table order, from probe `i` with `err`:
      whether a loader succeeded, the final err, and how many loaders were run. */
  function Probe(outcomes: seq<LoadStatus>, i: nat, err: LoadError): (r: (bool, LoadError, nat))
    requires i <= |outcomes|
    decreases |outcomes| - i
  {
    if i == |outcomes| then (false, err, i)
    else if outcomes[i] == LoadSuccess then (true, NoError, i + 1)
    else if Declines(outcomes[i]) then Probe(outcomes, i + 1, ErrOf(outcomes[i]))
    else (false, ErrOf(outcomes[i]), i + 1)
  }

  /** The index of the first loader that does not decline (|outcomes| when all decline). */
  function FirstDecisive(outcomes: seq<LoadStatus>, i: nat): (k: nat)
    requires i <= |outcomes|
    ensures i <= k <= |outcomes|
    ensures forall j :: i <= j < k ==> Declines(outcomes[j])
    ensures k < |outcomes| ==> !Declines(outcomes[k])
    decreases |outcomes| - i
  {
    if i == |outcomes| || !Declines(outcomes[i]) then i else FirstDecisive(outcomes, i + 1)
  }

  /** The probe loop runs loaders up to and including the first that does not decline:
      success stops with err 0, any other such status is fatal with its err; when every
      loader declines, err is what the last one left (or the initial 0). */
  lemma {:induction false} ProbeDecides(outcomes: seq<LoadStatus>, i: nat, err: LoadError)
    requires i <= |outcomes|
    ensures var k := FirstDecisive(outcomes, i);
      var r := Probe(outcomes, i, err);
      && (k < |outcomes| ==> r == (outcomes[k] == LoadSuccess, ErrOf(outcomes[k]), k + 1))
      && (k == |outcomes| ==> r == (false, if k == i then err else ErrOf(outcomes[k - 1]), k))
    decreases |outcomes| - i
  {
    if i < |outcomes| && Declines(outcomes[i]) {
      ProbeDecides(outcomes, i + 1, ErrOf(outcomes[i]));
    }
  }

  /** What song_create_load returns: the song (None) or NULL with the errno (Some). A song
      is returned when a loader succeeded, and also when no loader succeeded but err ended
      at 0, which happens when the last loader tried returned FILE_ERROR with errno 0. */
  function CreateResult(outcomes: seq<LoadStatus>): Option<LoadError> {
    var r := Probe(outcomes, 0, NoError);
    if r.0 || r.1 == NoError then None else Some(r.1)
  }

  /** The outcome cases of song_create_load over a table whose loaders all decline or
      the first decisive one is known. */
  lemma CreateResultCases(outcomes: seq<LoadStatus>)
    ensures var k := FirstDecisive(outcomes, 0);
      && (k < |outcomes| && outcomes[k] == LoadSuccess ==> CreateResult(outcomes) == None)
      && (k < |outcomes| && outcomes[k] == LoadFormatError ==> CreateResult(outcomes) == Some(FormatError))
      && (k < |outcomes| && outcomes[k].LoadFileError? ==>
            CreateResult(outcomes) == Some(Errno(outcomes[k].errno)))
      && (k == |outcomes| && k > 0 && outcomes[k - 1] == LoadUnsupported ==>
            CreateResult(outcomes) == Some(Unsupported))
      && (k == |outcomes| && (k == 0 || outcomes[k - 1] == LoadFileError(0)) ==> CreateResult(outcomes) == None)
  {
    ProbeDecides(outcomes, 0, NoError);
  }

  /** song_create_load given the outcomes the loaders in the table report for the file
      (the loaders themselves, the rewinds and the allocation are not modelled here):
      the probe loop, then on success the playback stop markers and the message rewrite. */
  method CreateLoad(newsong: Song, outcomes: seq<LoadStatus>) returns (result: Option<LoadError>, tried: nat)
    modifies newsong`stopAtOrder, newsong`stopAtRow, newsong`message
    ensures result == CreateResult(outcomes) && tried == Probe(outcomes, 0, NoError).2
    ensures result.None? ==> newsong.stopAtOrder == -1 && newsong.stopAtRow == -1
    ensures result.None? ==> newsong.message == ConvertNewlines(old(newsong.message))
  {
    var ok := false;
    var err := NoError;
    var i := 0;
    while i < |outcomes| && !ok
      invariant 0 <= i <= |outcomes|
      invariant !ok ==> Probe(outcomes, i, err) == Probe(outcomes, 0, NoError)
      invariant ok ==> (true, NoError, i) == Probe(outcomes, 0, NoError) && err == NoError
      decreases |outcomes| - i
    {
      var status := outcomes[i];
      i := i + 1;
      match status {
        case LoadSuccess =>
          err, ok := NoError, true;
        case LoadUnsupported =>
          err := Unsupported;
          continue;
        case LoadFormatError =>
          err := FormatError;
        case LoadFileError(e) =>
          err := if e == 0 then NoError else Errno(e);
      }
      if err != NoError {
        return Some(err), i;
      }
    }
    tried := i;
    if err != NoError {
      return Some(err), tried;
    }
    newsong.stopAtOrder, newsong.stopAtRow := -1, -1;
    ConvertMessage(newsong);
    result := None;
  }

  // ---------------------------------------------------------------------------
  // song_new

  /** The song_new flags that spare a part of the song. */
  datatype Keep = KeepPatterns | KeepSamples | KeepInstruments | KeepOrderlist

  /** An empty sample slot as song_new and song_clear_sample leave it. */
  const DEFAULT_SAMPLE: Sample := ZERO_SAMPLE.(c5speed := 8363, volume := 64 * 4, globalVolume := 64)

  /** A channel as song_new resets it: volume 64, panning 128, no flags. */
  const DEFAULT_CHANNEL: Channel := Channel(128, 64, false)

  /** A voice as song_new resets it: volume 256, the channel's volume, panning and flags,
      and cutoff 0x7F. */
  const DEFAULT_VOICE: Voice := Voice(256, DEFAULT_CHANNEL.volume, DEFAULT_CHANNEL.panning, DEFAULT_CHANNEL.mute, 0x7F)

  /** song_new: every part not named in `keep` is reset; the repeat count is always 0. A
      reset of the patterns also forgets the file name (song_set_filename(NULL)). */
  method SongNew(song: Song, keep: set<Keep>)
    requires song.Valid()
    modifies song`patterns, song`patternSize, song`patternAllocSize, song`samples, song`instruments
    modifies song`orderlist, song`title, song`message, song`channels, song`voices, song`repeatCount
    modifies song`filename, song`basename
    ensures song.Valid() && song.repeatCount == 0
    ensures KeepPatterns !in keep ==> song.filename == "" && song.basename == ""
    ensures KeepPatterns in keep ==> song.filename == old(song.filename) && song.basename == old(song.basename)
    ensures KeepPatterns !in keep ==>
      (forall i :: 0 <= i < MAX_PATTERNS ==> song.patterns[i].None? && song.patternSize[i] == 64
                                              && song.patternAllocSize[i] == 64)
    ensures KeepPatterns in keep ==>
      song.patterns == old(song.patterns) && song.patternSize == old(song.patternSize)
      && song.patternAllocSize == old(song.patternAllocSize)
    ensures KeepSamples !in keep ==>
      song.samples[0] == ZERO_SAMPLE && forall i :: 1 <= i < MAX_SAMPLES ==> song.samples[i] == DEFAULT_SAMPLE
    ensures KeepSamples in keep ==> song.samples == old(song.samples)
    ensures KeepInstruments !in keep ==> forall i :: 0 <= i < MAX_INSTRUMENTS ==> song.instruments[i] == null
    ensures KeepInstruments in keep ==> song.instruments == old(song.instruments)
    ensures KeepOrderlist !in keep ==>
      (forall i :: 0 <= i < MAX_ORDERS ==> song.orderlist[i] == ORDER_LAST)
      && song.title == Zeros(26) && song.message == ""
      && (forall i :: 0 <= i < MAX_CHANNELS ==> song.channels[i] == DEFAULT_CHANNEL && song.voices[i] == DEFAULT_VOICE)
    ensures KeepOrderlist in keep ==>
      song.orderlist == old(song.orderlist) && song.title == old(song.title) && song.message == old(song.message)
      && song.channels == old(song.channels) && song.voices == old(song.voices)
  {
    if KeepPatterns !in keep {
      song.filename, song.basename := "", "";
      ClearPatterns(song);
    }
    if KeepSamples !in keep {
      ResetSamples(song);
    }
    if KeepInstruments !in keep {
      ClearInstruments(song);
    }
    if KeepOrderlist !in keep {
      song.orderlist := seq(MAX_ORDERS, _ => ORDER_LAST);
      song.title := Zeros(26);
      song.message := "";
      ResetChannels(song);
    }
    song.repeatCount := 0;
  }

  /** The pattern loop of song_new: free every pattern and reset both sizes to 64 rows. */
  method ClearPatterns(song: Song)
    requires song.Valid()
    modifies song`patterns, song`patternSize, song`patternAllocSize
    ensures song.Valid()
    ensures forall i :: 0 <= i < MAX_PATTERNS ==>
      song.patterns[i].None? && song.patternSize[i] == 64 && song.patternAllocSize[i] == 64
  {
    var i := 0;
    while i < MAX_PATTERNS
      invariant 0 <= i <= MAX_PATTERNS && song.Valid()
      invariant forall k :: 0 <= k < i ==>
        song.patterns[k].None? && song.patternSize[k] == 64 && song.patternAllocSize[k] == 64
    {
      if song.patterns[i].Some? {
        song.patterns := song.patterns[i := None];
      }
      song.patternSize := song.patternSize[i := 64];
      song.patternAllocSize := song.patternAllocSize[i := 64];
      i := i + 1;
    }
  }

  /** The sample loops of song_new: every slot zeroed, then slots 1 up given the default
      speed and volumes. */
  method ResetSamples(song: Song)
    requires song.Valid()
    modifies song`samples
    ensures song.Valid()
    ensures song.samples[0] == ZERO_SAMPLE && forall i :: 1 <= i < MAX_SAMPLES ==> song.samples[i] == DEFAULT_SAMPLE
  {
    song.samples := seq(MAX_SAMPLES, _ => ZERO_SAMPLE);
    var i := 1;
    while i < MAX_SAMPLES
      invariant 1 <= i <= MAX_SAMPLES && song.Valid() && song.samples[0] == ZERO_SAMPLE
      invariant forall k :: 1 <= k < i ==> song.samples[k] == DEFAULT_SAMPLE
      invariant forall k :: i <= k < MAX_SAMPLES ==> song.samples[k] == ZERO_SAMPLE
    {
      song.samples := song.samples[i := song.samples[i].(c5speed := 8363, volume := 64 * 4, globalVolume := 64)];
      i := i + 1;
    }
  }

  /** The instrument loop of song_new: every slot emptied. */
  method ClearInstruments(song: Song)
    requires song.Valid()
    modifies song`instruments
    ensures song.Valid()
    ensures forall i :: 0 <= i < MAX_INSTRUMENTS ==> song.instruments[i] == null
  {
    var i := 0;
    while i < MAX_INSTRUMENTS
      invariant 0 <= i <= MAX_INSTRUMENTS && song.Valid()
      invariant forall k :: 0 <= k < i ==> song.instruments[k] == null
    {
      if song.instruments[i] != null {
        song.instruments := song.instruments[i := null];
      }
      i := i + 1;
    }
  }

  /** The channel loop of song_new: each channel reset, and its voice set from it. */
  method ResetChannels(song: Song)
    requires song.Valid()
    modifies song`channels, song`voices
    ensures song.Valid()
    ensures forall i :: 0 <= i < MAX_CHANNELS ==> song.channels[i] == DEFAULT_CHANNEL && song.voices[i] == DEFAULT_VOICE
  {
    var i := 0;
    while i < 64
      invariant 0 <= i <= 64 && song.Valid()
      invariant forall k :: 0 <= k < i ==> song.channels[k] == DEFAULT_CHANNEL && song.voices[k] == DEFAULT_VOICE
    {
      song.channels := song.channels[i := Channel(128, 64, false)];
      var ch := song.channels[i];
      song.voices := song.voices[i := Voice(256, ch.volume, ch.panning, ch.mute, 0x7F)];
      i := i + 1;
    }
  }

  // ---------------------------------------------------------------------------
  // song_clear_sample and song_copy_sample

  /** song_clear_sample: the slot is destroyed, zeroed, and given the default speed and volumes. */
  method ClearSample(song: Song, n: nat)
    requires song.Valid() && n < MAX_SAMPLES
    modifies song`samples
    ensures song.Valid() && song.samples == old(song.samples)[n := DEFAULT_SAMPLE]
  {
    song.samples := song.samples[n := ZERO_SAMPLE];
    song.samples := song.samples[n := song.samples[n].(c5speed := 8363, volume := 64 * 4, globalVolume := 64)];
  }

  /** The number of data bytes of a sample: its length in frames, doubled for 16-bit
      samples and doubled again for stereo ones. */
  function ByteLength(s: Sample): (r: nat)
    requires s.length >= 0
    ensures r >= s.length
    ensures r == s.length * (if SixteenBit in s.flags then 2 else 1) * (if Stereo in s.flags then 2 else 1)
  {
    var b := s.length;
    var b16 := if SixteenBit in s.flags then b * 2 else b;
    if Stereo in s.flags then b16 * 2 else b16
  }

  /** The sample song_copy_sample stores: every field of the source, and a fresh copy of
      the first ByteLength bytes of its data when it has any. */
  function Copied(src: Sample): (r: Sample)
    requires src.length >= 0 && (src.data.Some? ==> |src.data.value| >= ByteLength(src))
    ensures r.data.Some? <==> src.data.Some?
    ensures r.data.Some? ==> |r.data.value| == ByteLength(src)
    ensures r.(data := src.data) == src
  {
    if src.data.Some? then src.(data := Some(src.data.value[..ByteLength(src)])) else src
  }

  /** When the source's buffer is exactly its byte length the copy equals the source. */
  lemma CopyIsExact(src: Sample)
    requires src.length >= 0 && (src.data.Some? ==> |src.data.value| == ByteLength(src))
    ensures Copied(src) == src
  {
    if src.data.Some? {
      assert src.data.value[..ByteLength(src)] == src.data.value;
    }
  }

  /** song_copy_sample: the struct copy, then the ByteLength-byte data copy. */
  method CopySample(song: Song, n: nat, src: Sample)
    requires song.Valid() && n < MAX_SAMPLES
    requires src.length >= 0 && (src.data.Some? ==> |src.data.value| >= ByteLength(src))
    modifies song`samples
    ensures song.Valid() && song.samples == old(song.samples)[n := Copied(src)]
  {
    song.samples := song.samples[n := src];
    if src.data.Some? {
      var bytelength := src.length;
      if SixteenBit in src.flags {
        bytelength := bytelength * 2;
      }
      if Stereo in src.flags {
        bytelength := bytelength * 2;
      }
      var copy := src.data.value[..bytelength];
      song.samples := song.samples[n := song.samples[n].(data := Some(copy))];
    }
  }

  // ---------------------------------------------------------------------------
  // The sample sweep of song_load_instrument_ex

  /** The sample maps of the instruments in a slot table. */
  ghost function MapSet(insts: seq<Instrument?>): set<array<byte>> {
    set q | 0 <= q < |insts| && insts[q] != null :: insts[q].sampleMap
  }

  /** The contents of each slot's sample map, None for an empty slot. */
  ghost function MapsOf(insts: seq<Instrument?>): (r: seq<Option<seq<byte>>>)
    reads MapSet(insts)
    ensures |r| == |insts|
    ensures forall q :: 0 <= q < |insts| ==>
      r[q] == if insts[q] == null then None else Some(insts[q].sampleMap[..])
  {
    seq(|insts|, q reads MapSet(insts) requires 0 <= q < |insts| =>
      if insts[q] == null then None else Some(insts[q].sampleMap[..]))
  }

  /** Every loaded instrument's sample map has MAP_SIZE entries, each a valid sample index
      (the C code uses them to index an array of MAX_SAMPLES flags without a check). */
  ghost predicate MapsInRange(maps: seq<Option<seq<byte>>>) {
    |maps| == MAX_INSTRUMENTS
    && forall q :: 0 <= q < MAX_INSTRUMENTS && maps[q].Some? ==>
         |maps[q].value| == MAP_SIZE && forall j :: 0 <= j < MAP_SIZE ==> maps[q].value[j] < MAX_SAMPLES
  }

  /** Sample x is named by instrument slot q's map. */
  ghost predicate UsedBy(maps: seq<Option<seq<byte>>>, q: nat, x: nat)
    requires q < |maps|
  {
    maps[q].Some? && x in maps[q].value
  }

  /** Sample x is named by some slot below `upto` other than `target`. */
  ghost predicate UsedElsewhere(maps: seq<Option<seq<byte>>>, target: nat, x: nat, upto: nat)
    requires upto <= |maps|
  {
    exists q :: 0 <= q < upto && q != target && UsedBy(maps, q, x)
  }

  /** The samples the sweep destroys: j >= 1, named by the target instrument, and named by
      no other instrument slot. */
  ghost predicate Doomed(maps: seq<Option<seq<byte>>>, target: nat, j: nat)
    requires target < |maps|
  {
    1 <= j && UsedBy(maps, target, j) && !UsedElsewhere(maps, target, j, |maps|)
  }

  /** Step 0 of song_load_instrument_ex: when the target slot holds an instrument, mark the
      samples its map names, unmark those any other instrument names, and zero the marked
      slots from 1 up. (The final loop that clears marks of empty samples only writes the
      local array, which is not read afterwards.) */
  method SweepSamples(song: Song, target: nat)
    requires song.Valid() && MapsInRange(MapsOf(song.instruments)) && target < MAX_INSTRUMENTS
    modifies song`samples
    ensures song.Valid()
    ensures song.instruments[target] == null ==> song.samples == old(song.samples)
    ensures song.instruments[target] != null ==>
      forall j :: 0 <= j < MAX_SAMPLES ==>
        song.samples[j] == if Doomed(old(MapsOf(song.instruments)), target, j) then ZERO_SAMPLE else old(song.samples[j])
  {
    var insts := song.instruments;
    ghost var maps := MapsOf(insts);
    if insts[target] == null {
      return;
    }
    var mark := new bool[MAX_SAMPLES](_ => false);
    MarkTarget(insts, maps, target, mark);
    var q := 0;
    while q < MAX_INSTRUMENTS
      invariant 0 <= q <= MAX_INSTRUMENTS && song.samples == old(song.samples)
      invariant forall x :: 0 <= x < MAX_SAMPLES ==>
        (mark[x] <==> UsedBy(maps, target, x) && !UsedElsewhere(maps, target, x, q))
    {
      if q != target && insts[q] != null {
        Unmark(insts, maps, target, q, mark);
      } else {
        assert forall x :: UsedElsewhere(maps, target, x, q + 1) ==> UsedElsewhere(maps, target, x, q);
      }
      q := q + 1;
    }
    var marked := mark[..];
    var j := 1;
    while j < MAX_SAMPLES
      invariant 1 <= j <= MAX_SAMPLES && |song.samples| == MAX_SAMPLES
      invariant forall k :: 0 <= k < MAX_SAMPLES ==>
        song.samples[k] == if k < j && Doomed(maps, target, k) then ZERO_SAMPLE else old(song.samples[k])
    {
      if marked[j] {
        song.samples := song.samples[j := ZERO_SAMPLE];
      }
      j := j + 1;
    }
  }

  /** The `init` loop: mark every sample the target's map names. */
  method MarkTarget(insts: seq<Instrument?>, ghost maps: seq<Option<seq<byte>>>, target: nat, mark: array<bool>)
    requires maps == MapsOf(insts) && MapsInRange(maps) && target < MAX_INSTRUMENTS && insts[target] != null
    requires mark.Length == MAX_SAMPLES
    requires forall x :: 0 <= x < MAX_SAMPLES ==> !mark[x]
    modifies mark
    ensures forall x :: 0 <= x < MAX_SAMPLES ==> (mark[x] <==> UsedBy(maps, target, x))
  {
    var m := insts[target].sampleMap;
    var j := 0;
    while j < MAP_SIZE
      invariant 0 <= j <= MAP_SIZE
      invariant forall x :: 0 <= x < MAX_SAMPLES ==> (mark[x] <==> x in m[..j])
    {
      assert m[..j + 1] == m[..j] + [m[j]];
      mark[m[j]] := true;
      j := j + 1;
    }
    assert m[..MAP_SIZE] == m[..];
  }

  /** The `mark` loop for one other instrument slot q: unmark every sample its map names. */
  method Unmark(insts: seq<Instrument?>, ghost maps: seq<Option<seq<byte>>>, target: nat, q: nat, mark: array<bool>)
    requires maps == MapsOf(insts) && MapsInRange(maps)
    requires target < MAX_INSTRUMENTS && q < MAX_INSTRUMENTS && q != target && insts[q] != null
    requires mark.Length == MAX_SAMPLES
    requires forall x :: 0 <= x < MAX_SAMPLES ==>
      (mark[x] <==> UsedBy(maps, target, x) && !UsedElsewhere(maps, target, x, q))
    modifies mark
    ensures forall x :: 0 <= x < MAX_SAMPLES ==>
      (mark[x] <==> UsedBy(maps, target, x) && !UsedElsewhere(maps, target, x, q + 1))
  {
    var m := insts[q].sampleMap;
    var j := 0;
    while j < MAP_SIZE
      invariant 0 <= j <= MAP_SIZE
      invariant forall x :: 0 <= x < MAX_SAMPLES ==>
        (mark[x] <==> UsedBy(maps, target, x) && !UsedElsewhere(maps, target, x, q) && x !in m[..j])
    {
      assert m[..j + 1] == m[..j] + [m[j]];
      mark[m[j]] := false;
      j := j + 1;
    }
    assert m[..MAP_SIZE] == m[..];
    forall x | 0 <= x < MAX_SAMPLES
      ensures UsedElsewhere(maps, target, x, q + 1) <==> UsedElsewhere(maps, target, x, q) || x in m[..]
    {
      if x in m[..] {
        assert UsedBy(maps, q, x);
      }
    }
  }

  // ---------------------------------------------------------------------------
  // The instrument loader's sample slots

  /** The first slot index from `from` up whose sample has no data, or MAX_SAMPLES. */
  function FirstFree(samples: seq<Sample>, from: nat): (x: nat)
    requires |samples| == MAX_SAMPLES
    ensures from <= x || x == MAX_SAMPLES
    ensures x <= MAX_SAMPLES && (x < MAX_SAMPLES ==> samples[x].data.None?)
    ensures forall k :: from <= k < x ==> samples[k].data.Some?
    decreases MAX_SAMPLES - from
  {
    if from >= MAX_SAMPLES then MAX_SAMPLES
    else if samples[from].data.None? then from
    else FirstFree(samples, from + 1)
  }

  /** `struct instrumentloader`: the samples still expected, the instrument slot, the next
      sample index to try, and the map from the file's sample numbers to song sample indices. */
  class InstrumentLoader {
    var expectSamples: int
    var slot: int
    var basex: int
    const sampleMap: array<int>

    /** Every index handed out lies below basex, which never passes the table, and no two
        file samples share a song sample. */
    ghost predicate Valid()
      reads this, sampleMap
    {
      sampleMap.Length == MAX_SAMPLES && 1 <= basex <= MAX_SAMPLES
      && (forall i :: 0 <= i < MAX_SAMPLES ==> 0 <= sampleMap[i] < basex)
      && (forall i, k :: 0 <= i < k < MAX_SAMPLES && sampleMap[i] != 0 ==> sampleMap[i] != sampleMap[k])
    }

    /** instrument_loader_init: nothing expected, basex 1, an all-zero map. (Fetching the
        instrument with song_get_instrument is not part of this model.) */
    constructor (target: int)
      ensures Valid() && expectSamples == 0 && slot == target && basex == 1
      ensures forall i :: 0 <= i < MAX_SAMPLES ==> sampleMap[i] == 0
    {
      expectSamples := 0;
      slot := target;
      basex := 1;
      sampleMap := new int[MAX_SAMPLES](_ => 0);
    }

    /** instrument_loader_sample: file sample 0 maps to nothing; a number seen before gets
        its remembered index; a new one takes the first data-less slot from basex up, which
        then moves past it; when none is left the result is 0 and nothing changes. */
    method Sample(samples: seq<Sample>, n: nat) returns (x: int)
      requires Valid() && |samples| == MAX_SAMPLES && n < MAX_SAMPLES
      modifies this, sampleMap
      ensures Valid()
      ensures n == 0 ==> x == 0 && unchanged(this, sampleMap)
      ensures n != 0 && old(sampleMap[n]) != 0 ==> x == old(sampleMap[n]) && unchanged(this, sampleMap)
      ensures n != 0 && old(sampleMap[n]) == 0 ==>
        var f := FirstFree(samples, old(basex));
        if f == MAX_SAMPLES then x == 0 && unchanged(this, sampleMap)
        else x == f && old(basex) <= x && basex == x + 1 && expectSamples == old(expectSamples) + 1
             && sampleMap[..] == old(sampleMap[..])[n := x] && slot == old(slot)
    {
      if n == 0 {
        return 0;
      }
      if sampleMap[n] != 0 {
        return sampleMap[n];
      }
      var k := basex;
      while k < MAX_SAMPLES
        invariant old(basex) <= k <= MAX_SAMPLES
        invariant FirstFree(samples, k) == FirstFree(samples, old(basex))
        decreases MAX_SAMPLES - k
      {
        if samples[k].data.Some? {
          k := k + 1;
          continue;
        }
        expectSamples := expectSamples + 1;
        sampleMap[n] := k;
        basex := k + 1;
        return sampleMap[n];
      }
      return 0;
    }
  }
}
