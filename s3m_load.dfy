/** fmt_s3m_load_song as the C code runs it: reads and seeks on a cursor, loops over the
    channel table, the sample headers, the sample data and the pattern streams, and stores
    into the song as it goes. Each phase is proved to leave exactly what the corresponding
    function of S3mFormat describes. */
module S3mLoad {
  import opened Bytes
  import opened Slurp
  import opened SongModel
  import opened S3mRules
  import opened S3mFormat

  /** `slurp_read(fp, &w, 2)` followed by `bswapLE16`. */
  method ReadWord(fp: Cursor) returns (w: nat)
    requires fp.Valid()
    modifies fp`pos
    ensures fp.Valid() && w == Word(fp.data, old(fp.pos)) && fp.pos == AfterRead(fp.data, old(fp.pos), 2)
  {
    var b, _ := fp.Read(2);
    w := LE16(b, 0);
  }

  /** `slurp_read(fp, &l, 4)` followed by `bswapLE32`. */
  method ReadDword(fp: Cursor) returns (w: nat)
    requires fp.Valid()
    modifies fp`pos
    ensures fp.Valid() && w == Dword(fp.data, old(fp.pos)) && fp.pos == AfterRead(fp.data, old(fp.pos), 4)
  {
    var b, _ := fp.Read(4);
    w := LE32(b, 0);
  }

  /** Title, skip, and the three counts, from the start of the file. */
  method ReadCounts(fp: Cursor) returns (c: Counts)
    requires fp.Valid()
    modifies fp`pos
    ensures fp.Valid() && (c, fp.pos) == CountsAt(fp.data)
  {
    fp.Rewind();
    var title, _ := fp.Read(25);
    var _ := fp.Seek(7, SEEK_CUR);
    var nord := ReadWord(fp);
    var nsmp := ReadWord(fp);
    var npat := ReadWord(fp);
    c := Counts(title + [0], nord, nsmp, npat);
  }

  /** The header fields after the counts. */
  method ReadScalars(fp: Cursor) returns (s: Scalars)
    requires fp.Valid()
    modifies fp`pos
    ensures fp.Valid() && (s, fp.pos) == ScalarsAt(fp.data, old(fp.pos))
  {
    var flags := ReadWord(fp);
    var trkvers := ReadWord(fp);
    var ffi := ReadWord(fp);
    var _ := fp.Seek(4, SEEK_CUR);
    var gv := fp.Getc();
    var speed := fp.Getc();
    var tempo := fp.Getc();
    var mv := fp.Getc();
    var uc := fp.Getc();
    var dp := fp.Getc();
    var reserved := ReadWord(fp);
    var _ := fp.Seek(6, SEEK_CUR);
    var special := ReadWord(fp);
    s := Scalars(flags, trkvers, ffi, gv, speed, tempo, mv, uc, dp, reserved, special);
  }

  /** The body of the channel settings loop: bit 7 mutes the channel, the rest of the type
      byte picks the panning, and A1-A9 marks an AdLib channel. */
  method SetChannel(prev: Channel, stored: byte) returns (ch: Channel, isAdlib: bool)
    ensures ch == ChannelSetting(prev, stored) && (isAdlib <==> KindOf(stored) == AdlibChannel)
  {
    var c := stored;
    var mute := prev.mute;
    if c >= 0x80 {
      mute := true;
      c := c - 0x80;
    }
    var pan;
    isAdlib := false;
    if c < 0x08 {
      pan := 14;
    } else if c < 0x10 {
      pan := 50;
    } else if c < 0x19 {
      pan := 32;
      isAdlib := true;
    } else {
      pan := 32;
      mute := true;
    }
    ch := Channel(pan, 64, mute);
  }

  /** The channel settings loop over 32 stored type bytes, then channels 32..63. */
  method ReadChannels(fp: Cursor, prev: seq<Channel>) returns (chans: seq<Channel>, adlib: set<nat>)
    requires fp.Valid() && |prev| == MAX_CHANNELS
    modifies fp`pos
    ensures fp.Valid()
    ensures chans == ChannelsAt(fp.data, old(fp.pos), prev) && adlib == AdlibSet(fp.data, old(fp.pos))
    ensures fp.pos == AfterRead(fp.data, old(fp.pos), 32)
  {
    ghost var p0 := fp.pos;
    ghost var spec := ChannelsAt(fp.data, p0, prev);
    chans := prev;
    adlib := {};
    var n := 0;
    while n < 32
      invariant 0 <= n <= 32 && fp.Valid() && fp.pos == AfterRead(fp.data, p0, n)
      invariant |chans| == MAX_CHANNELS
      invariant forall k :: 0 <= k < n ==> chans[k] == spec[k]
      invariant forall k :: n <= k < MAX_CHANNELS ==> chans[k] == prev[k]
      invariant adlib == set k: nat | k < n && KindOf(StoredType(fp.data, p0, k)) == AdlibChannel
    {
      var got := fp.Getc();
      var c: byte := ToByte(got);
      assert c == StoredType(fp.data, p0, n);
      var ch, isAdlib := SetChannel(chans[n], c);
      chans := chans[n := ch];
      if isAdlib {
        adlib := adlib + {n};
      }
      n := n + 1;
    }
    while n < MAX_CHANNELS
      invariant 32 <= n <= MAX_CHANNELS && |chans| == MAX_CHANNELS
      invariant forall k :: 0 <= k < n ==> chans[k] == spec[k]
    {
      chans := chans[n := Channel(32, 64, true)];
      n := n + 1;
    }
    assert chans == spec;
    assert adlib == AdlibSet(fp.data, p0);
  }

  /** The default pannings: 32 bytes, each replacing its channel's panning when bit 5 is set
      outside the AdLib channels of old files. */
  method ReadPannings(fp: Cursor, prev: seq<Channel>, adlib: set<nat>, trkvers: nat) returns (chans: seq<Channel>)
    requires fp.Valid() && |prev| == MAX_CHANNELS
    modifies fp`pos
    ensures fp.Valid()
    ensures chans == PanningsAt(fp.data, old(fp.pos), prev, adlib, trkvers)
    ensures fp.pos == AfterRead(fp.data, old(fp.pos), 32)
  {
    ghost var p0 := fp.pos;
    ghost var spec := PanningsAt(fp.data, p0, prev, adlib, trkvers);
    chans := prev;
    var n := 0;
    while n < 32
      invariant 0 <= n <= 32 && fp.Valid() && fp.pos == AfterRead(fp.data, p0, n)
      invariant |chans| == MAX_CHANNELS
      invariant forall k :: 0 <= k < n ==> chans[k] == spec[k]
      invariant forall k :: n <= k < MAX_CHANNELS ==> chans[k] == prev[k]
    {
      var got := fp.Getc();
      var c: byte := ToByte(got);
      assert c == StoredType(fp.data, p0, n);
      if HasBit(c, 0x20) && (n !in adlib || trkvers > 0x1320) {
        chans := chans[n := chans[n].(panning := (c % 16) * 4 + 2)];
      }
      n := n + 1;
    }
    assert chans == spec;
  }

  /** `panning *= 4` on every channel. */
  method ScalePannings(prev: seq<Channel>) returns (chans: seq<Channel>)
    ensures chans == Scaled(prev)
  {
    chans := prev;
    var n := 0;
    while n < |chans|
      invariant 0 <= n <= |chans| && |chans| == |prev|
      invariant forall k :: 0 <= k < n ==> chans[k] == prev[k].(panning := prev[k].panning * 4)
      invariant forall k :: n <= k < |chans| ==> chans[k] == prev[k]
    {
      chans := chans[n := chans[n].(panning := chans[n].panning * 4)];
      n := n + 1;
    }
  }

  /** The order list (padded with ORDER_LAST) and the two parapointer tables. */
  method ReadTables(fp: Cursor, c: Counts) returns (orders: seq<byte>, paraSmp: seq<nat>, paraPat: seq<nat>)
    requires fp.Valid() && c.nord <= MAX_ORDERS
    modifies fp`pos
    ensures fp.Valid()
    ensures var p3 := AfterRead(fp.data, old(fp.pos), c.nord);
      var p4 := AfterRead(fp.data, p3, 2 * c.nsmp);
      && orders == OrdersAt(fp.data, old(fp.pos), c.nord)
      && paraSmp == ParasAt(fp.data, p3, c.nsmp) && paraPat == ParasAt(fp.data, p4, c.npat)
      && fp.pos == AfterRead(fp.data, p4, 2 * c.npat)
  {
    var ords, _ := fp.Read(c.nord);
    orders := ords + seq(MAX_ORDERS - c.nord, _ => ORDER_LAST);
    var smpBytes, _ := fp.Read(2 * c.nsmp);
    paraSmp := seq(c.nsmp, k requires 0 <= k < c.nsmp => LE16(smpBytes, 2 * k));
    var patBytes, _ := fp.Read(2 * c.npat);
    paraPat := seq(c.npat, k requires 0 <= k < c.npat => LE16(patBytes, 2 * k));
  }

  /** The default pannings when the panning byte was 0xFC, then the scaling to 0..256. */
  method SettleChannels(fp: Cursor, chans: seq<Channel>, adlib: set<nat>, misc: Misc, trkvers: nat,
                        ghost p1: nat, ghost prev: seq<Channel>)
    returns (settled: seq<Channel>)
    requires fp.Valid() && |prev| == MAX_CHANNELS && chans == ChannelsAt(fp.data, p1, prev) && adlib == AdlibSet(fp.data, p1)
    modifies fp`pos
    ensures fp.Valid() && settled == SettledChannels(fp.data, p1, old(fp.pos), prev, misc.chanPan, trkvers)
    ensures fp.pos == if misc.chanPan then AfterRead(fp.data, old(fp.pos), 32) else old(fp.pos)
  {
    settled := chans;
    if misc.chanPan {
      settled := ReadPannings(fp, settled, adlib, trkvers);
    }
    settled := ScalePannings(settled);
  }

  /** Everything from the scalars to the optional default pannings. */
  method ReadHead(fp: Cursor, c: Counts, prev: seq<Channel>) returns (h: Head)
    requires fp.Valid() && c.nord <= MAX_ORDERS && |prev| == MAX_CHANNELS
    modifies fp`pos
    ensures fp.Valid() && h == HeadAt(fp.data, c, old(fp.pos), prev) && fp.pos == h.pos
  {
    ghost var p0 := fp.pos;
    var s := ReadScalars(fp);
    ghost var p1 := fp.pos;
    var misc := MiscOf(s);
    var chans, adlib := ReadChannels(fp, prev);
    var orders, paraSmp, paraPat := ReadTables(fp, c);
    chans := SettleChannels(fp, chans, adlib, misc, s.trkvers, p1, prev);
    h := Head(s, misc, chans, adlib, orders, paraSmp, paraPat, fp.pos);
  }

  // ---------------------------------------------------------------------------
  // Sample headers

  method ReadPcmBody(fp: Cursor, unsigned: bool, s: Sample, memseg: seq<byte>) returns (b: Body)
    requires fp.Valid() && |memseg| == 3
    modifies fp`pos
    ensures fp.Valid() && b == PcmBody(fp.data, old(fp.pos), unsigned, s, memseg) && fp.pos == b.pos
  {
    var sdata := PcmPointer(memseg);
    var length := ReadDword(fp);
    var loopStart := ReadDword(fp);
    var loopEnd := ReadDword(fp);
    var vol := fp.Getc();
    var _ := fp.Getc();
    var _ := fp.Getc();
    var got := fp.Getc();
    var c := ToByte(got);
    var flags := s.flags;
    if HasBit(c, 1) {
      flags := flags + {Loop};
    }
    var sample := s.(length := length, loopStart := loopStart, loopEnd := loopEnd, volume := vol * 4, flags := flags);
    b := Body(sample, sdata, Some(FormatOf(c, unsigned)), length != 0, fp.pos);
  }

  method ReadAdlibBody(fp: Cursor, s: Sample) returns (b: Body)
    requires fp.Valid()
    modifies fp`pos
    ensures fp.Valid() && b == AdlibBody(fp.data, old(fp.pos), s) && fp.pos == b.pos
  {
    var bytes, _ := fp.Read(12);
    var vol := fp.Getc();
    var _ := fp.Seek(3, SEEK_CUR);
    var sample := s.(adlibBytes := bytes, volume := vol * 4, flags := s.flags + {Adlib}, length := 1,
                     data := Some(Zeros(1)));
    b := Body(sample, 0, None, false, fp.pos);
  }

  method ReadEmptyBody(fp: Cursor, s: Sample) returns (b: Body)
    requires fp.Valid()
    modifies fp`pos
    ensures fp.Valid() && b == EmptyBody(fp.data, old(fp.pos), s) && fp.pos == b.pos
  {
    var _ := fp.Seek(12, SEEK_CUR);
    var vol := fp.Getc();
    var _ := fp.Seek(3, SEEK_CUR);
    b := Body(s.(volume := vol * 4), 0, None, false, fp.pos);
  }

  /** One sample header at the cursor, into the slot holding `prev`. */
  method ReadSample(fp: Cursor, unsigned: bool, prev: Sample) returns (si: SampleInfo)
    requires fp.Valid()
    modifies fp`pos
    ensures fp.Valid() && si == SampleAt(fp.data, old(fp.pos), unsigned, prev) && fp.pos == si.pos
  {
    var got := fp.Getc();
    var kind := ToByte(got);
    var filename, _ := fp.Read(12);
    var memseg, _ := fp.Read(3);
    var s := prev.(filename := filename + [0]);
    var body;
    if kind == S3I_TYPE_PCM {
      body := ReadPcmBody(fp, unsigned, s, memseg);
    } else if kind == S3I_TYPE_ADMEL {
      body := ReadAdlibBody(fp, s);
    } else {
      body := ReadEmptyBody(fp, s);
    }
    var c5 := ReadDword(fp);
    if kind == S3I_TYPE_ADMEL {
      c5 := AdlibSpeed(c5);
    }
    var _ := fp.Seek(4, SEEK_CUR);
    var gus := ReadWord(fp);
    var _ := fp.Seek(6, SEEK_CUR);
    var name, _ := fp.Read(25);
    var sample := body.sample.(c5speed := c5, name := name + [0], vibType := 0, vibRate := 0,
                               vibDepth := 0, vibSpeed := 0, globalVolume := 64);
    si := SampleInfo(sample, body.sdata, body.format, body.any, gus, fp.pos);
  }

  /** One iteration of the header loop: the seek to header n's parapointer * 16, then the header. */
  method ReadSlot(fp: Cursor, paras: seq<nat>, unsigned: bool, prev: seq<Sample>, ghost p0: nat,
                  n: nat, ghost infos: seq<SampleInfo>) returns (si: SampleInfo)
    requires fp.Valid() && n < |paras| && n < |prev| && HeadersRead(fp.data, paras, unsigned, prev, p0, n, infos, fp.pos)
    modifies fp`pos
    ensures fp.Valid() && HeadersRead(fp.data, paras, unsigned, prev, p0, n + 1, infos + [si], fp.pos)
  {
    SamplesRunNext(fp.data, paras, unsigned, prev, p0, n);
    var _ := fp.Seek(paras[n] * 16, SEEK_SET);
    si := ReadSample(fp, unsigned, prev[n]);
  }

  /** The rest of the iteration: header n fills slot n + 1 and is folded into the summaries. */
  method StoreSlot(song: Song, ghost prior: seq<Sample>, ghost infos: seq<SampleInfo>, n: nat, si: SampleInfo,
                   gus: nat, any: bool) returns (gus': nat, any': bool)
    requires |prior| == MAX_SAMPLES && n == |infos| && n + 1 < MAX_SAMPLES
    requires song.samples == PlaceSamples(prior, infos) && Summaries(infos, n, gus, any)
    modifies song`samples
    ensures song.samples == PlaceSamples(prior, infos + [si]) && Summaries(infos + [si], n + 1, gus', any')
  {
    PlaceSamplesStep(prior, infos, si);
    song.samples := song.samples[n + 1 := si.sample];
    SummariesAppend(infos, si);
    gus' := BitOr(gus, si.gus % 0x10000);
    any' := any || si.any;
  }

  /** The sample header loop: header n, read at parapointer n * 16, fills slot n + 1; the GUS
      addresses are or-ed together and `any_samples` records a nonzero PCM length. */
  method ReadSamples(fp: Cursor, song: Song, paras: seq<nat>, unsigned: bool)
    returns (infos: seq<SampleInfo>, gus: nat, any: bool)
    requires fp.Valid() && |song.samples| == MAX_SAMPLES && |paras| < MAX_SAMPLES
    modifies fp`pos, song`samples
    ensures fp.Valid() && |infos| == |paras|
    ensures HeadersRead(fp.data, paras, unsigned, old(song.samples)[1..], old(fp.pos), |paras|, infos, fp.pos)
    ensures song.samples == PlaceSamples(old(song.samples), infos)
    ensures Summaries(infos, |paras|, gus, any)
  {
    ghost var p0 := fp.pos;
    ghost var prior := song.samples;
    var prev := song.samples[1..];
    infos := [];
    gus, any := 0, false;
    var n := 0;
    while n < |paras|
      invariant 0 <= n <= |paras| && fp.Valid() && |song.samples| == MAX_SAMPLES && |infos| == n
      invariant HeadersRead(fp.data, paras, unsigned, prev, p0, n, infos, fp.pos)
      invariant song.samples == PlaceSamples(prior, infos)
      invariant Summaries(infos, n, gus, any)
    {
      var si := ReadSlot(fp, paras, unsigned, prev, p0, n, infos);
      gus, any := StoreSlot(song, prior, infos, n, si, gus, any);
      infos := infos + [si];
      n := n + 1;
    }
  }

  /** The sample data loop: a seek to each PCM slot's data and a `csf_read_sample` request. */
  method ReadSampleData(fp: Cursor, infos: seq<SampleInfo>) returns (requests: seq<SampleRead>)
    requires fp.Valid()
    modifies fp`pos
    ensures fp.Valid() && DataRead(fp.data, infos, old(fp.pos), |infos|, requests, fp.pos)
  {
    ghost var p0 := fp.pos;
    requests := [];
    var n := 0;
    while n < |infos|
      invariant 0 <= n <= |infos| && fp.Valid()
      invariant DataRead(fp.data, infos, p0, n, requests, fp.pos)
    {
      if NeedsData(infos[n].sample) {
        var _ := fp.Seek(infos[n].sdata * 16, SEEK_SET);
        requests := requests + [SampleRead(n + 1, infos[n].format, fp.pos)];
      }
      n := n + 1;
    }
  }

  // ---------------------------------------------------------------------------
  // Patterns

  /** The fields one mask byte announces, read at the cursor into `cell`. */
  method ReadCell(fp: Cursor, mask: byte, cell: Note, adlibChannel: bool, imp: Note -> Note) returns (note: Note)
    requires fp.Valid()
    modifies fp`pos
    ensures fp.Valid() && (note, fp.pos) == CellAt(fp.data, old(fp.pos), mask, cell, adlibChannel, imp)
  {
    note := cell;
    if HasBit(mask, 0x20) {
      var n := fp.Getc();
      var i := fp.Getc();
      note := note.(note := NoteCode(ToByte(n), adlibChannel), instrument := ToByte(i));
    }
    if HasBit(mask, 0x40) {
      var v := fp.Getc();
      var vc := VolumeColumn(ToByte(v));
      note := note.(volEffect := vc.0, volParam := vc.1);
    }
    if HasBit(mask, 0x80) {
      var e := fp.Getc();
      var p := fp.Getc();
      note := SpecialCleanup(imp(note.(effect := ToByte(e), param := ToByte(p))));
    }
  }

  /** One pass of the row loop: a mask byte, and for a nonzero mask the cell it selects.
      The stream from the new state reaches the same end as the stream from the old one. */
  method ReadRowItem(fp: Cursor, g: array<Note>, row: nat, end: int, adlib: set<nat>, imp: Note -> Note,
                     ghost target: Stream)
    returns (next: nat, eof: bool)
    requires fp.Valid() && g.Length == 64 * MAX_CHANNELS && row < 64 && fp.pos < end
    requires StreamReaches(fp.data, fp.pos, end, row, g[..], adlib, imp, target)
    modifies fp`pos, g
    ensures fp.Valid() && next <= 64
    ensures eof ==> target == Stream(g[..], true, fp.pos, row)
    ensures !eof ==> old(fp.pos) < fp.pos && StreamReaches(fp.data, fp.pos, end, next, g[..], adlib, imp, target)
  {
    ghost var p := fp.pos;
    var mask := fp.Getc();
    if mask == EOF {
      StopsAtTarget(fp.data, p, end, row, g[..], adlib, imp, target);
      return row, true;
    }
    if mask == 0 {
      SkipKeepsTarget(fp.data, p, end, row, g[..], adlib, imp, target);
      return row + 1, false;
    }
    ReadRowCell(fp, g, row, end, adlib, imp, target, p, mask);
    return row, false;
  }

  /** A nonzero channel byte: the cell it names is read over the grid's cell. */
  method ReadRowCell(fp: Cursor, g: array<Note>, row: nat, end: int, adlib: set<nat>, imp: Note -> Note,
                     ghost target: Stream, ghost p: nat, mask: byte)
    requires fp.Valid() && g.Length == 64 * MAX_CHANNELS && row < 64
    requires p < |fp.data| && p < end && fp.pos == p + 1 && mask == GetcAt(fp.data, p) && mask != 0
    requires StreamReaches(fp.data, p, end, row, g[..], adlib, imp, target)
    modifies fp`pos, g
    ensures fp.Valid() && p < fp.pos
    ensures StreamReaches(fp.data, fp.pos, end, row, g[..], adlib, imp, target)
  {
    var chn := mask % 32;
    var at := 64 * row + chn;
    ghost var before := g[..];
    var prev := g[at];
    var cell := ReadCell(fp, mask, prev, chn in adlib, imp);
    CellKeepsTarget(fp.data, p, end, row, before, adlib, imp, target, mask, at, prev, cell, fp.pos);
    g[at] := cell;
    assert g[..] == before[at := cell];
  }

  /** One pattern: the length word, a fresh 64-row grid and the row loop up to `end`. */
  method ReadPattern(fp: Cursor, para: nat, adlib: set<nat>, imp: Note -> Note)
    returns (grid: seq<Note>, truncated: bool)
    requires fp.Valid()
    modifies fp`pos
    ensures fp.Valid()
    ensures var st := PatternAt(fp.data, old(fp.pos), para, adlib, imp);
      grid == st.grid && truncated == st.truncated && fp.pos == st.pos
  {
    ghost var p := fp.pos;
    var _ := fp.Seek(para * 16, SEEK_SET);
    ghost var p0 := fp.pos;
    var tmp := ReadWord(fp);
    var end := para * 16 + tmp + 2;
    var g := new Note[64 * MAX_CHANNELS](_ => BLANK_NOTE);
    assert g[..] == BlankPattern(64);
    ghost var target := RowStream(fp.data, fp.pos, end, 0, BlankPattern(64), adlib, imp);
    PatternAtIs(fp.data, p, para, adlib, imp, p0, end, target);
    var row := 0;
    truncated := false;
    while row < 64 && fp.Tell() < end
      invariant fp.Valid() && 0 <= row <= 64 && !truncated
      invariant StreamReaches(fp.data, fp.pos, end, row, g[..], adlib, imp, target)
      decreases |fp.data| - fp.pos
    {
      var eof;
      row, eof := ReadRowItem(fp, g, row, end, adlib, imp, target);
      if eof {
        truncated := true;
        break;
      }
    }
    if !truncated {
      StopsAtTarget(fp.data, fp.pos, end, row, g[..], adlib, imp, target);
    }
    grid := g[..];
    assert target.grid == grid && target.truncated == truncated && target.pos == fp.pos;
  }

  /** One iteration of the pattern loop: a zero parapointer is skipped, any other pattern
      is decoded into its slot and logged when truncated. */
  method PatternSlot(fp: Cursor, song: Song, paras: seq<nat>, adlib: set<nat>, imp: Note -> Note,
                     ghost p0: nat, n: nat, ghost prior: seq<Option<seq<Note>>>, ghost grids: seq<Option<seq<Note>>>,
                     warnings: seq<nat>)
    returns (warnings': seq<nat>, ghost grids': seq<Option<seq<Note>>>)
    requires fp.Valid() && n < |paras| <= MAX_PATTERNS && |prior| == MAX_PATTERNS
    requires PatternsRead(fp.data, paras, adlib, imp, p0, n, Patterns(grids, warnings, fp.pos))
    requires song.patterns == PlacePatterns(prior, grids)
    modifies fp`pos, song`patterns
    ensures fp.Valid() && PatternsRead(fp.data, paras, adlib, imp, p0, n + 1, Patterns(grids', warnings', fp.pos))
    ensures song.patterns == PlacePatterns(prior, grids')
  {
    PatternsRunNext(fp.data, paras, adlib, imp, p0, n);
    if paras[n] == 0 {
      warnings', grids' := warnings, grids + [None];
      PlacePatternsStep(prior, grids, None);
    } else {
      var grid, truncated := ReadPattern(fp, paras[n], adlib, imp);
      PlacePatternsStep(prior, grids, Some(grid));
      song.patterns := song.patterns[n := Some(grid)];
      warnings' := if truncated then warnings + [n] else warnings;
      grids' := grids + [Some(grid)];
    }
  }

  /** The pattern loop: patterns with a parapointer are decoded into their slots. */
  method ReadPatterns(fp: Cursor, song: Song, paras: seq<nat>, adlib: set<nat>, imp: Note -> Note)
    returns (warnings: seq<nat>, ghost grids: seq<Option<seq<Note>>>)
    requires fp.Valid() && |song.patterns| == MAX_PATTERNS && |paras| <= MAX_PATTERNS
    modifies fp`pos, song`patterns
    ensures fp.Valid()
    ensures PatternsRead(fp.data, paras, adlib, imp, old(fp.pos), |paras|, Patterns(grids, warnings, fp.pos))
    ensures song.patterns == PlacePatterns(old(song.patterns), grids)
  {
    ghost var p0 := fp.pos;
    ghost var prior := song.patterns;
    warnings, grids := [], [];
    var n := 0;
    while n < |paras|
      invariant 0 <= n <= |paras| && fp.Valid()
      invariant PatternsRead(fp.data, paras, adlib, imp, p0, n, Patterns(grids, warnings, fp.pos))
      invariant song.patterns == PlacePatterns(prior, grids)
    {
      warnings, grids := PatternSlot(fp, song, paras, adlib, imp, p0, n, prior, grids, warnings);
      n := n + 1;
    }
  }

  // ---------------------------------------------------------------------------
  // The whole load

  /** The song fields the loader writes. */
  function Snapshot(song: Song): Fields
    reads song
  {
    Fields(song.title, song.flags, song.initialGlobalVolume, song.initialSpeed, song.initialTempo,
           song.mixingVolume, song.channels, song.orderlist, song.samples, song.patterns, song.trackerId)
  }

  /** The header scalars as the loader stores them in the song. */
  method StoreHead(song: Song, c: Counts, h: Head)
    requires song.Valid() && |c.title| == 26 && HeadFits(c, h) && song.title == c.title
    modifies song`flags, song`initialGlobalVolume, song`initialSpeed, song`initialTempo,
             song`mixingVolume, song`channels, song`orderlist
    ensures song.Valid() && Snapshot(song) == HeadFields(c, h, old(Snapshot(song)))
  {
    ghost var want := HeadFields(c, h, Snapshot(song));
    var mv := MixingVolume(h.s.mv);
    song.flags := if mv.1 then {ItOldEffects, NoStereo} else {ItOldEffects};
    song.initialGlobalVolume := GlobalVolume(h.s.gv);
    song.initialSpeed := Speed(h.s.speed);
    song.initialTempo := Tempo(h.s.tempo);
    song.mixingVolume := AdlibCompensation(mv.0, h.adlib != {}, h.s.trkvers);
    song.channels := h.channels;
    song.orderlist := h.orders;
    assert Snapshot(song) == want;
  }

  /** The sample headers, the sample data unless LOAD_NOSAMPLES, and the GUS check. */
  method LoadSampleParts(song: Song, fp: Cursor, lflags: LoadFlags, h: Head)
    returns (infos: seq<SampleInfo>, gus: nat, any: bool, requests: seq<SampleRead>, ghost p1: nat)
    requires fp.Valid() && song.Valid() && |h.paraSmp| < MAX_SAMPLES
    modifies song`samples, song`mixingVolume, fp`pos
    ensures fp.Valid() && song.Valid()
    ensures HeadersRead(fp.data, h.paraSmp, h.misc.unsigned, old(song.samples)[1..], old(fp.pos), |h.paraSmp|, infos, p1)
    ensures if lflags.noSamples then requests == [] && fp.pos == p1
            else DataRead(fp.data, infos, p1, |h.paraSmp|, requests, fp.pos)
    ensures Summaries(infos, |h.paraSmp|, gus, any)
    ensures Snapshot(song) == WithSamples(old(Snapshot(song)), infos, gus)
  {
    requests := [];
    infos, gus, any := ReadSamples(fp, song, h.paraSmp, h.misc.unsigned);
    p1 := fp.pos;
    if !lflags.noSamples {
      requests := ReadSampleData(fp, infos);
    }
    if gus > 1 {
      song.mixingVolume := 48;
    }
  }

  /** The patterns unless LOAD_NOPATTERNS, then the tracker ID from the fingerprint. */
  method LoadPatternParts(song: Song, fp: Cursor, lflags: LoadFlags, h: Head, f: Fingerprint, imp: Note -> Note)
    returns (warnings: seq<nat>, ghost pats: Patterns)
    requires fp.Valid() && song.Valid() && |h.paraPat| <= MAX_PATTERNS
    requires f.trkvers < 0x10000 && f.flags < 0x10000 && f.reserved < 0x10000
    modifies song`patterns, song`trackerId, fp`pos
    ensures fp.Valid() && song.Valid() && warnings == pats.warnings && |pats.grids| <= MAX_PATTERNS
    ensures if lflags.noPatterns then pats == Patterns([], [], old(fp.pos))
            else PatternsRead(fp.data, h.paraPat, h.adlib, imp, old(fp.pos), |h.paraPat|, pats)
    ensures Snapshot(song) == WithPatterns(old(Snapshot(song)), pats, TrackerId(f))
  {
    warnings := [];
    pats := Patterns([], [], fp.pos);
    if !lflags.noPatterns {
      ghost var grids;
      warnings, grids := ReadPatterns(fp, song, h.paraPat, h.adlib, imp);
      pats := Patterns(grids, warnings, fp.pos);
    } else {
      assert PlacePatterns(song.patterns, []) == song.patterns;
    }
    var tid := TrackerId(f);
    if tid.Some? {
      song.trackerId := tid.value;
    }
  }

  /** Everything fmt_s3m_load_song does once the counts are in range: the header, the
      sample step and the pattern step. The ghost results are the header and the three
      loops' results, which LoadBodyParts assembles into LoadBody. */
  method LoadSongBody(song: Song, fp: Cursor, lflags: LoadFlags, c: Counts, imp: Note -> Note)
    returns (requests: seq<SampleRead>, warnings: seq<nat>,
             h: Head, ghost infos: seq<SampleInfo>, ghost p1: nat, ghost p2: nat, ghost pats: Patterns)
    requires song.Valid() && fp.Valid() && CountsFit(c) && |c.title| == 26 && song.title == c.title
    modifies song`flags, song`initialGlobalVolume, song`initialSpeed, song`initialTempo,
             song`mixingVolume, song`channels, song`orderlist, song`samples, song`patterns, song`trackerId,
             fp`pos
    ensures song.Valid() && fp.Valid() && warnings == pats.warnings
    ensures h == HeadAt(fp.data, c, old(fp.pos), old(Snapshot(song)).channels)
    ensures HeadersRead(fp.data, h.paraSmp, h.misc.unsigned, old(Snapshot(song)).samples[1..], h.pos, c.nsmp, infos, p1)
    ensures if lflags.noSamples then requests == [] && p2 == p1 else DataRead(fp.data, infos, p1, c.nsmp, requests, p2)
    ensures if lflags.noPatterns then pats == Patterns([], [], p2)
            else PatternsRead(fp.data, h.paraPat, h.adlib, imp, p2, c.npat, pats)
    ensures |infos| == c.nsmp && |pats.grids| <= MAX_PATTERNS && HeadFits(c, h)
    ensures Snapshot(song) == SongFields(c, h, infos, pats, old(Snapshot(song)))
  {
    ghost var prior := Snapshot(song);
    h := ReadHead(fp, c, song.channels);
    StoreHead(song, c, h);
    var gus, any;
    infos, gus, any, requests, p1 := LoadSampleParts(song, fp, lflags, h);
    p2 := fp.pos;
    var f := Fingerprint(h.s.trkvers, h.s.special, h.s.uc, h.s.flags, h.misc, c.nord, gus, any, h.s.reserved);
    warnings, pats := LoadPatternParts(song, fp, lflags, h, f, imp);
  }

  /** fmt_s3m_load_song, with the tag read at offset 44 only (a failed seek means no tag) and
      the sample count kept below MAX_SAMPLES. Returns the status, the sample reads it
      requests and the patterns it logs as truncated. */
  method LoadSong(song: Song, fp: Cursor, lflags: LoadFlags, imp: Note -> Note)
    returns (status: LoadStatus, requests: seq<SampleRead>, warnings: seq<nat>)
    requires song.Valid() && fp.Valid()
    modifies song`title, song`flags, song`initialGlobalVolume, song`initialSpeed, song`initialTempo,
             song`mixingVolume, song`channels, song`orderlist, song`samples, song`patterns, song`trackerId,
             fp`pos
    ensures song.Valid() && fp.Valid()
    ensures LoadGives(fp.data, lflags, old(Snapshot(song)), imp, status, Snapshot(song), requests, warnings)
  {
    ghost var prior := Snapshot(song);
    requests, warnings := [], [];
    var r := fp.Seek(44, SEEK_SET);
    var tag, _ := fp.Read(4);
    if r != 0 || tag != SCRM {
      if |fp.data| >= 44 {
        TagAgrees(fp.data, old(fp.pos));
      }
      LoadUntagged(fp.data, lflags, prior, imp);
      return LoadUnsupported, requests, warnings;
    }
    TagAgrees(fp.data, old(fp.pos));
    var c := ReadCounts(fp);
    ghost var p := fp.pos;
    song.title := c.title;
    if !(c.nord <= MAX_ORDERS && c.nsmp < MAX_SAMPLES && c.npat <= MAX_PATTERNS) {
      LoadBadCounts(fp.data, lflags, prior, imp, c, p);
      return LoadFormatError, requests, warnings;
    }
    ghost var titled := Snapshot(song);
    ghost var h, infos, p1, p2, pats;
    requests, warnings, h, infos, p1, p2, pats := LoadSongBody(song, fp, lflags, c, imp);
    LoadDecoded(fp.data, lflags, prior, imp, c, p, titled, h, infos, p1, requests, p2, pats);
    return LoadSuccess, requests, warnings;
  }
}
