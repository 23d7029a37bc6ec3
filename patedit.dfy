/** The state logic of the pattern editor (schism/page_patedit.c): the configuration
    strings of the track view scheme and the multichannel flags, the visible area computed
    from the scheme, the rectangle snapshots and the ten-slot undo ring, the row and pattern
    clamps, and the order search of play-from-mark. */
module PatternEditor {
  import opened Bytes
  import opened SongModel

  /** The number of channels the editor shows at most. */
  const EDITOR_CHANNELS: nat := 64

  /** `NUM_TRACK_VIEWS`: the entries of the track view table. */
  const NUM_TRACK_VIEWS: nat := 7

  /** The most columns the channels of the pattern editor may take. */
  const MAX_VISIBLE_WIDTH: nat := 72

  /** The column width of each track view, as the track view table lists them. */
  function TrackWidth(v: nat): (w: nat)
    requires v < NUM_TRACK_VIEWS
    ensures 1 <= w <= 13
  {
    if v == 0 then 13 else if v == 1 then 10 else if v == 2 then 7 else if v == 3 then 6
    else if v == 4 then 3 else if v == 5 then 2 else 1
  }

  // ---------------------------------------------------------------------------
  // cfg_save_patedit and cfg_load_patedit

  predicate IsLower(c: byte) { 'a' as int <= c <= 'z' as int }
  predicate IsUpper(c: byte) { 'A' as int <= c <= 'Z' as int }
  predicate IsLetter(c: byte) { IsLower(c) || IsUpper(c) }

  /** The scheme value a letter stands for: its place in the alphabet, in either case. */
  function LetterValue(c: byte): (v: byte)
    requires IsLetter(c)
    ensures v < 26
  {
    if IsLower(c) then c - 'a' as int else c - 'A' as int
  }

  /** The track_view_scheme string: each entry plus 'a', in a char. */
  function EncodedScheme(scheme: seq<byte>): (s: seq<byte>)
    requires |scheme| == EDITOR_CHANNELS
    ensures |s| == EDITOR_CHANNELS
  {
    seq(EDITOR_CHANNELS, i requires 0 <= i < EDITOR_CHANNELS => ToByte(scheme[i] + 'a' as int))
  }

  /** The channel_multi string: 'M' for a set entry, '-' otherwise. */
  function EncodedMulti(multi: seq<int>): (s: seq<byte>)
    requires |multi| == EDITOR_CHANNELS
    ensures |s| == EDITOR_CHANNELS
  {
    seq(EDITOR_CHANNELS, i requires 0 <= i < EDITOR_CHANNELS => if multi[i] != 0 then 'M' as int else '-' as int)
  }

  /** Where the decoding of the scheme buffer stops: at the first byte from n on that is
      not a letter (the terminating NUL or a corrupt character), or at the end. */
  function SchemeStop(buf: seq<byte>, n: nat): (k: nat)
    requires |buf| == EDITOR_CHANNELS && n <= EDITOR_CHANNELS
    ensures n <= k <= EDITOR_CHANNELS
    ensures forall i :: n <= i < k ==> IsLetter(buf[i])
    ensures k < EDITOR_CHANNELS ==> !IsLetter(buf[k])
    decreases EDITOR_CHANNELS - n
  {
    if n == EDITOR_CHANNELS || !IsLetter(buf[n]) then n else SchemeStop(buf, n + 1)
  }

  /** The scan for the end of the letters stops at the first non-letter. */
  lemma {:induction false} SchemeStopIs(buf: seq<byte>, m: nat, n: nat)
    requires |buf| == EDITOR_CHANNELS && m <= n <= EDITOR_CHANNELS
    requires forall k :: m <= k < n ==> IsLetter(buf[k])
    requires n == EDITOR_CHANNELS || !IsLetter(buf[n])
    ensures SchemeStop(buf, m) == n
    decreases n - m
  {
    if m < n {
      SchemeStopIs(buf, m + 1, n);
    }
  }

  /** Whether the scheme buffer holds a character that is neither a letter nor the end. */
  predicate SchemeCorrupt(buf: seq<byte>)
    requires |buf| == EDITOR_CHANNELS
  {
    var k := SchemeStop(buf, 0);
    k < EDITOR_CHANNELS && buf[k] != 0
  }

  /** The scheme cfg_load_patedit decodes from a 64-byte buffer: the letters up to the end
      of the string as scheme values, the rest padded with the last of them (0 for an empty
      string); a corrupt buffer gives the default, all zeros. */
  function DecodedScheme(buf: seq<byte>): (r: seq<byte>)
    requires |buf| == EDITOR_CHANNELS
    ensures |r| == EDITOR_CHANNELS
  {
    var k := SchemeStop(buf, 0);
    if SchemeCorrupt(buf) then Zeros(EDITOR_CHANNELS)
    else
      var last := if k == 0 then 0 else LetterValue(buf[k - 1]);
      seq(EDITOR_CHANNELS, i requires 0 <= i < EDITOR_CHANNELS => if i < k then LetterValue(buf[i]) else last)
  }

  /** The scheme as the source decodes a corrupt buffer: setting n to 64 before the copy
      keeps the decoded letters and the raw bytes from the corrupt one on. */
  function DecodedSchemeAsWritten(buf: seq<byte>): (r: seq<byte>)
    requires |buf| == EDITOR_CHANNELS
    ensures |r| == EDITOR_CHANNELS
    ensures !SchemeCorrupt(buf) ==> r == DecodedScheme(buf)
  {
    var k := SchemeStop(buf, 0);
    if SchemeCorrupt(buf) then
      seq(EDITOR_CHANNELS, i requires 0 <= i < EDITOR_CHANNELS => if i < k then LetterValue(buf[i]) else buf[i])
    else DecodedScheme(buf)
  }

  /** The buffer cfg_get_string leaves for the default "a". */
  const DEFAULT_SCHEME_BUFFER: seq<byte> := ['a' as int] + Zeros(EDITOR_CHANNELS - 1)

  /** The corrupted buffer "c!" reports that it uses the default, yet the source keeps the
      decoded 'c' as scheme entry 0, and recalculate_visible_area keeps it too (it is a valid
      view), where the default has view 0. */
  lemma CorruptSchemeKept(divisions: bool)
    ensures var buf := ['c' as int, '!' as int] + Zeros(EDITOR_CHANNELS - 2);
      && SchemeCorrupt(buf)
      && RepairedScheme(DecodedSchemeAsWritten(buf), divisions)[0] == 2
      && RepairedScheme(DecodedScheme(buf), divisions)[0] == 0
  {
    var buf := ['c' as int, '!' as int] + Zeros(EDITOR_CHANNELS - 2);
    assert IsLetter(buf[0]) && !IsLetter(buf[1]);
    assert SchemeStop(buf, 1) == 1;
  }

  /** A corrupt buffer decodes to exactly what the default string decodes to. */
  lemma CorruptSchemeIsDefault(buf: seq<byte>)
    requires |buf| == EDITOR_CHANNELS && SchemeCorrupt(buf)
    ensures DecodedScheme(buf) == DecodedScheme(DEFAULT_SCHEME_BUFFER)
  {
    var d := DEFAULT_SCHEME_BUFFER;
    assert IsLetter(d[0]) && !IsLetter(d[1]);
    assert SchemeStop(d, 1) == 1;
    assert SchemeStop(d, 0) == 1;
  }

  /** Saving and loading the scheme gives back every value 0..25. */
  lemma SchemeRoundTrip(scheme: seq<byte>)
    requires |scheme| == EDITOR_CHANNELS && forall i :: 0 <= i < EDITOR_CHANNELS ==> scheme[i] < 26
    ensures DecodedScheme(EncodedScheme(scheme)) == scheme
  {
    var s := EncodedScheme(scheme);
    assert forall i :: 0 <= i < EDITOR_CHANNELS ==> IsLower(s[i]) && LetterValue(s[i]) == scheme[i];
  }

  /** A string shorter than 64 letters loads as its letter values padded with the last. */
  lemma SchemePadsShortString(str: seq<byte>, rest: seq<byte>)
    requires |str| < EDITOR_CHANNELS && |str| + 1 + |rest| == EDITOR_CHANNELS
    requires forall i :: 0 <= i < |str| ==> IsLetter(str[i])
    ensures var r := DecodedScheme(str + [0] + rest);
      (forall i :: 0 <= i < |str| ==> r[i] == LetterValue(str[i]))
      && forall i :: |str| <= i < EDITOR_CHANNELS ==> r[i] == if str == [] then 0 else LetterValue(str[|str| - 1])
  {
    var buf := str + [0] + rest;
    assert forall i :: 0 <= i < |str| ==> buf[i] == str[i];
    assert !IsLetter(buf[|str|]);
    assert SchemeStop(buf, 0) == |str|;
  }

  /** Where the decoding of the multichannel buffer stops: at the terminating NUL. */
  function NulStop(buf: seq<byte>, n: nat): (k: nat)
    requires |buf| == EDITOR_CHANNELS && n <= EDITOR_CHANNELS
    ensures n <= k <= EDITOR_CHANNELS
    ensures forall i :: n <= i < k ==> buf[i] != 0
    ensures k < EDITOR_CHANNELS ==> buf[k] == 0
    decreases EDITOR_CHANNELS - n
  {
    if n == EDITOR_CHANNELS || buf[n] == 0 then n else NulStop(buf, n + 1)
  }

  /** The scan for the end of the string stops at the first NUL. */
  lemma {:induction false} NulStopIs(buf: seq<byte>, m: nat, n: nat)
    requires |buf| == EDITOR_CHANNELS && m <= n <= EDITOR_CHANNELS
    requires forall k :: m <= k < n ==> buf[k] != 0
    requires n == EDITOR_CHANNELS || buf[n] == 0
    ensures NulStop(buf, m) == n
    decreases n - m
  {
    if m < n {
      NulStopIs(buf, m + 1, n);
    }
  }

  /** channel_multi as cfg_load_patedit decodes it: 1 for a letter before the end of the
      string, 0 everywhere else. */
  function DecodedMulti(buf: seq<byte>): (r: seq<int>)
    requires |buf| == EDITOR_CHANNELS
    ensures |r| == EDITOR_CHANNELS
  {
    var k := NulStop(buf, 0);
    seq(EDITOR_CHANNELS, i requires 0 <= i < EDITOR_CHANNELS => if i < k && IsLetter(buf[i]) then 1 else 0)
  }

  /** Saving and loading the multichannel flags gives back each flag as 1 or 0. */
  lemma MultiRoundTrip(multi: seq<int>)
    requires |multi| == EDITOR_CHANNELS
    ensures DecodedMulti(EncodedMulti(multi)) == seq(EDITOR_CHANNELS, i requires 0 <= i < EDITOR_CHANNELS => if multi[i] != 0 then 1 else 0)
  {
    var s := EncodedMulti(multi);
    assert NulStop(s, 0) == EDITOR_CHANNELS;
  }

  // ---------------------------------------------------------------------------
  // recalculate_visible_area

  /** The view channel i shows once recalculate_visible_area has repaired the scheme up
      to it: its own entry when that is a valid view, otherwise the repaired view of the
      channel before (view 0 for the first channel). */
  function RepairedView(s: seq<byte>, i: nat): (v: byte)
    requires i < |s|
    ensures v < NUM_TRACK_VIEWS
  {
    if s[i] < NUM_TRACK_VIEWS then s[i] else if i == 0 then 0 else RepairedView(s, i - 1)
  }

  /** The columns the first k channels take: each repaired view's width, followed by a
      division column when divisions are drawn. */
  function Columns(s: seq<byte>, k: nat, divisions: bool): (w: nat)
    requires k <= |s|
    ensures w >= k && (divisions ==> w >= 2 * k)
  {
    if k == 0 then 0
    else Columns(s, k - 1, divisions) + TrackWidth(RepairedView(s, k - 1)) + (if divisions then 1 else 0)
  }

  /** Channel k fits: after the first k channels its view still ends within 72 columns. */
  predicate Fits(s: seq<byte>, k: nat, divisions: bool)
    requires k < |s|
  {
    Columns(s, k, divisions) + TrackWidth(RepairedView(s, k)) <= MAX_VISIBLE_WIDTH
  }

  /** The first channel from n on that does not fit, or 64 when all of them do. */
  function ShownChannels(s: seq<byte>, n: nat, divisions: bool): (c: nat)
    requires |s| == EDITOR_CHANNELS && n <= EDITOR_CHANNELS
    ensures n <= c <= EDITOR_CHANNELS
    ensures forall k :: n <= k < c ==> Fits(s, k, divisions)
    ensures c < EDITOR_CHANNELS ==> !Fits(s, c, divisions)
    decreases EDITOR_CHANNELS - n
  {
    if n == EDITOR_CHANNELS || !Fits(s, n, divisions) then n else ShownChannels(s, n + 1, divisions)
  }

  /** The search for the first channel that does not fit ends at the first one. */
  lemma {:induction false} ShownChannelsIs(s: seq<byte>, m: nat, n: nat, divisions: bool)
    requires |s| == EDITOR_CHANNELS && m <= n <= EDITOR_CHANNELS
    requires forall k :: m <= k < n ==> Fits(s, k, divisions)
    requires n == EDITOR_CHANNELS || !Fits(s, n, divisions)
    ensures ShownChannels(s, m, divisions) == n
    decreases n - m
  {
    if m < n {
      ShownChannelsIs(s, m + 1, n, divisions);
    }
  }

  /** visible_channels after recalculate_visible_area: the channels that fit, in order. */
  function VisibleChannels(s: seq<byte>, divisions: bool): (c: nat)
    requires |s| == EDITOR_CHANNELS
    ensures c <= EDITOR_CHANNELS
  {
    ShownChannels(s, 0, divisions)
  }

  /** visible_width after recalculate_visible_area: the columns of the visible channels
      without the division after the last. */
  function VisibleWidth(s: seq<byte>, divisions: bool): int
    requires |s| == EDITOR_CHANNELS
  {
    Columns(s, VisibleChannels(s, divisions), divisions) - (if divisions then 1 else 0)
  }

  /** track_view_scheme after recalculate_visible_area: the entries the loop examined (the
      visible channels and the one that stopped it) repaired, the rest as they were. */
  function RepairedScheme(s: seq<byte>, divisions: bool): (r: seq<byte>)
    requires |s| == EDITOR_CHANNELS
    ensures |r| == EDITOR_CHANNELS
  {
    var c := VisibleChannels(s, divisions);
    seq(EDITOR_CHANNELS, i requires 0 <= i < EDITOR_CHANNELS => if i <= c then RepairedView(s, i) else s[i])
  }

  /** The visible area is never empty and never wider than 72 columns, and every entry the
      loop examined holds a valid view afterwards. */
  lemma VisibleAreaBounds(s: seq<byte>, divisions: bool)
    requires |s| == EDITOR_CHANNELS
    ensures 1 <= VisibleChannels(s, divisions)
    ensures 0 <= VisibleWidth(s, divisions) <= MAX_VISIBLE_WIDTH
    ensures forall i :: 0 <= i < EDITOR_CHANNELS && i <= VisibleChannels(s, divisions) ==>
      RepairedScheme(s, divisions)[i] < NUM_TRACK_VIEWS
  {
    var c := VisibleChannels(s, divisions);
    assert Fits(s, 0, divisions);
    assert Fits(s, c - 1, divisions);
    assert Columns(s, c, divisions) == Columns(s, c - 1, divisions) + TrackWidth(RepairedView(s, c - 1)) + (if divisions then 1 else 0);
  }

  /** The visible channels are the most that fit: with one channel more the area would pass
      72 columns. */
  lemma VisibleAreaMaximal(s: seq<byte>, divisions: bool)
    requires |s| == EDITOR_CHANNELS
    requires VisibleChannels(s, divisions) < EDITOR_CHANNELS
    ensures Columns(s, VisibleChannels(s, divisions) + 1, divisions) - (if divisions then 1 else 0) > MAX_VISIBLE_WIDTH
  {
    var c := VisibleChannels(s, divisions);
    assert !Fits(s, c, divisions);
    assert Columns(s, c + 1, divisions) == Columns(s, c, divisions) + TrackWidth(RepairedView(s, c)) + (if divisions then 1 else 0);
  }

  /** A scheme holding only valid views is left as it is. */
  lemma {:induction false} ValidSchemeKept(s: seq<byte>, divisions: bool)
    requires |s| == EDITOR_CHANNELS && forall i :: 0 <= i < EDITOR_CHANNELS ==> s[i] < NUM_TRACK_VIEWS
    ensures RepairedScheme(s, divisions) == s
  {
    var r := RepairedScheme(s, divisions);
    forall i | 0 <= i < EDITOR_CHANNELS
      ensures r[i] == s[i]
    {
    }
  }

  /** Repairing twice gives the same scheme and the same area as repairing once. */
  lemma RepairIdempotent(s: seq<byte>, divisions: bool)
    requires |s| == EDITOR_CHANNELS
    ensures RepairedScheme(RepairedScheme(s, divisions), divisions) == RepairedScheme(s, divisions)
    ensures VisibleChannels(RepairedScheme(s, divisions), divisions) == VisibleChannels(s, divisions)
  {
    var c := VisibleChannels(s, divisions);
    var r := RepairedScheme(s, divisions);
    RepairedFits(s, divisions);
    ShownChannelsIs(r, 0, c, divisions);
    var r2 := RepairedScheme(r, divisions);
    forall i | 0 <= i < EDITOR_CHANNELS
      ensures r2[i] == r[i]
    {
    }
  }

  /** The repaired scheme shows the same views, and so fits the same channels, as the
      scheme it was repaired from, up to the channel that stopped the loop. */
  lemma RepairedFits(s: seq<byte>, divisions: bool)
    requires |s| == EDITOR_CHANNELS
    ensures var c, r := VisibleChannels(s, divisions), RepairedScheme(s, divisions);
      forall k :: 0 <= k < EDITOR_CHANNELS && k <= c ==> RepairedView(r, k) == RepairedView(s, k) && (Fits(r, k, divisions) <==> Fits(s, k, divisions))
  {
    var c := VisibleChannels(s, divisions);
    var r := RepairedScheme(s, divisions);
    var m := if c < EDITOR_CHANNELS then c + 1 else c;
    forall j | 0 <= j < m
      ensures RepairedView(r, j) == RepairedView(s, j)
    {
      assert r[j] == RepairedView(s, j);
    }
    forall k | 0 <= k < m
      ensures Fits(r, k, divisions) <==> Fits(s, k, divisions)
    {
      ColumnsAgree(r, s, k, divisions);
    }
  }

  /** The columns of k channels depend only on the repaired views of those channels. */
  lemma {:induction false} ColumnsAgree(s: seq<byte>, t: seq<byte>, k: nat, divisions: bool)
    requires k <= |s| && k <= |t|
    requires forall j :: 0 <= j < k ==> RepairedView(s, j) == RepairedView(t, j)
    ensures Columns(s, k, divisions) == Columns(t, k, divisions)
  {
    if k > 0 {
      ColumnsAgree(s, t, k - 1, divisions);
    }
  }

  // ---------------------------------------------------------------------------
  // The view settings of the page

  /** The statics `track_view_scheme`, `channel_multi`, `channel_multi_enabled`,
      `draw_divisions`, `visible_channels`, `visible_width` and `top_display_channel`. */
  class ViewSettings {
    const trackViewScheme: array<byte>
    const channelMulti: array<int>
    var channelMultiEnabled: bool
    var drawDivisions: bool
    var visibleChannels: int
    var visibleWidth: int
    var topDisplayChannel: int

    ghost predicate Valid()
      reads this
    {
      trackViewScheme.Length == EDITOR_CHANNELS && channelMulti.Length == EDITOR_CHANNELS
    }

    /** The zero-initialised statics, the top channel 1 and divisions off. */
    constructor ()
      ensures Valid() && fresh(trackViewScheme) && fresh(channelMulti)
      ensures trackViewScheme[..] == Zeros(EDITOR_CHANNELS) && channelMulti[..] == seq(EDITOR_CHANNELS, _ => 0)
      ensures !channelMultiEnabled && !drawDivisions && topDisplayChannel == 1
    {
      trackViewScheme := new byte[EDITOR_CHANNELS](_ => 0);
      channelMulti := new int[EDITOR_CHANNELS](_ => 0);
      channelMultiEnabled, drawDivisions := false, false;
      visibleChannels, visibleWidth, topDisplayChannel := 0, 0, 1;
    }

    /** The two strings cfg_save_patedit writes: the scheme letters and the multichannel
        marks. */
    method CfgSave() returns (scheme: seq<byte>, multi: seq<byte>)
      requires Valid()
      ensures scheme == EncodedScheme(trackViewScheme[..])
      ensures multi == EncodedMulti(channelMulti[..])
    {
      var s := new byte[EDITOR_CHANNELS + 1](_ => 0);
      var n := 0;
      while n < EDITOR_CHANNELS
        invariant 0 <= n <= EDITOR_CHANNELS
        invariant forall k :: 0 <= k < n ==> s[k] == EncodedScheme(trackViewScheme[..])[k]
      {
        s[n] := ToByte(trackViewScheme[n] + 'a' as int);
        n := n + 1;
      }
      s[EDITOR_CHANNELS] := 0;
      scheme := s[..EDITOR_CHANNELS];
      n := 0;
      while n < EDITOR_CHANNELS
        invariant 0 <= n <= EDITOR_CHANNELS
        invariant forall k :: 0 <= k < n ==> s[k] == EncodedMulti(channelMulti[..])[k]
      {
        s[n] := if channelMulti[n] != 0 then 'M' as int else '-' as int;
        n := n + 1;
      }
      s[EDITOR_CHANNELS] := 0;
      multi := s[..EDITOR_CHANNELS];
    }

    /** The decoding of the scheme buffer in cfg_load_patedit (with a corrupt buffer giving
        the default). */
    method LoadScheme(buf: seq<byte>)
      requires Valid() && |buf| == EDITOR_CHANNELS
      modifies trackViewScheme
      ensures trackViewScheme[..] == DecodedScheme(buf)
    {
      var s, n, r, corrupt := DecodeLetters(buf);
      if corrupt {
        n, r := 0, 0;
      }
      FillScheme(s, n, r);
      ghost var d := DecodedScheme(buf);
      forall k | 0 <= k < EDITOR_CHANNELS
        ensures trackViewScheme[k] == d[k]
      {
      }
      assert trackViewScheme[..] == d;
    }

    /** The decoding loop of cfg_load_patedit on its copy of the buffer: letters become
        scheme values up to the end of the string or the first corrupt character. */
    static method DecodeLetters(buf: seq<byte>) returns (s: seq<byte>, n: nat, r: byte, corrupt: bool)
      requires |buf| == EDITOR_CHANNELS
      ensures n == SchemeStop(buf, 0) && (corrupt <==> SchemeCorrupt(buf))
      ensures |s| == EDITOR_CHANNELS
      ensures forall k :: 0 <= k < n ==> s[k] == LetterValue(buf[k])
      ensures r == if n == 0 then 0 else LetterValue(buf[n - 1])
    {
      var a := new byte[EDITOR_CHANNELS](i requires 0 <= i < EDITOR_CHANNELS => buf[i]);
      n, r, corrupt := 0, 0, false;
      while n < EDITOR_CHANNELS
        invariant 0 <= n <= EDITOR_CHANNELS
        invariant forall k :: 0 <= k < n ==> IsLetter(buf[k]) && a[k] == LetterValue(buf[k])
        invariant forall k :: n <= k < EDITOR_CHANNELS ==> a[k] == buf[k]
        invariant r == if n == 0 then 0 else LetterValue(buf[n - 1])
        invariant !corrupt
      {
        var c := a[n];
        var v: byte;
        if c == 0 {
          break;
        } else if IsLower(c) {
          v := c - 'a' as int;
        } else if IsUpper(c) {
          v := c - 'A' as int;
        } else {
          corrupt := true;
          break;
        }
        a[n] := v;
        r := v;
        n := n + 1;
      }
      SchemeStopIs(buf, 0, n);
      s := a[..];
    }

    /** The memcpy and memset that end the decoding: the first n values copied, the rest
        filled with r. */
    method FillScheme(s: seq<byte>, n: nat, r: byte)
      requires Valid() && |s| == EDITOR_CHANNELS && n <= EDITOR_CHANNELS
      modifies trackViewScheme
      ensures forall k :: 0 <= k < EDITOR_CHANNELS ==> trackViewScheme[k] == if k < n then s[k] else r
    {
      var i := 0;
      while i < n
        invariant 0 <= i <= n
        invariant forall k :: 0 <= k < i ==> trackViewScheme[k] == s[k]
      {
        trackViewScheme[i] := s[i];
        i := i + 1;
      }
      while i < EDITOR_CHANNELS
        invariant n <= i <= EDITOR_CHANNELS
        invariant forall k :: 0 <= k < n ==> trackViewScheme[k] == s[k]
        invariant forall k :: n <= k < i ==> trackViewScheme[k] == r
      {
        trackViewScheme[i] := r;
        i := i + 1;
      }
    }

    /** The decoding of the multichannel buffer in cfg_load_patedit. */
    method LoadMulti(buf: seq<byte>)
      requires Valid() && |buf| == EDITOR_CHANNELS
      modifies channelMulti, this`channelMultiEnabled
      ensures channelMulti[..] == DecodedMulti(buf)
      ensures channelMultiEnabled <==> 1 in channelMulti[..]
    {
      ClearMulti();
      channelMultiEnabled := false;
      var n := 0;
      while n < EDITOR_CHANNELS
        invariant 0 <= n <= EDITOR_CHANNELS
        invariant forall k :: 0 <= k < n ==> buf[k] != 0
        invariant forall k :: 0 <= k < EDITOR_CHANNELS ==> channelMulti[k] == if k < n && IsLetter(buf[k]) then 1 else 0
        invariant channelMultiEnabled <==> exists k :: 0 <= k < n && IsLetter(buf[k])
      {
        if buf[n] == 0 {
          break;
        }
        var m := if IsLetter(buf[n]) then 1 else 0;
        channelMulti[n] := m;
        if m != 0 {
          channelMultiEnabled := true;
        }
        n := n + 1;
      }
      NulStopIs(buf, 0, n);
      ghost var d := DecodedMulti(buf);
      forall k | 0 <= k < EDITOR_CHANNELS
        ensures channelMulti[k] == d[k]
      {
      }
      assert channelMulti[..] == d;
    }

    /** The memset clearing channel_multi before it is decoded. */
    method ClearMulti()
      requires Valid()
      modifies channelMulti
      ensures forall k :: 0 <= k < EDITOR_CHANNELS ==> channelMulti[k] == 0
    {
      var i := 0;
      while i < EDITOR_CHANNELS
        invariant 0 <= i <= EDITOR_CHANNELS
        invariant forall k :: 0 <= k < i ==> channelMulti[k] == 0
      {
        channelMulti[i] := 0;
        i := i + 1;
      }
    }

    /** recalculate_visible_area: the loop over the scheme repairing entries and summing
        widths until the next channel would pass 72 columns, then the top channel limited so
        that nothing past channel 64 is shown. */
    method RecalculateVisibleArea()
      requires Valid()
      modifies trackViewScheme, this`visibleWidth, this`visibleChannels, this`topDisplayChannel
      ensures trackViewScheme[..] == RepairedScheme(old(trackViewScheme[..]), drawDivisions)
      ensures visibleChannels == VisibleChannels(old(trackViewScheme[..]), drawDivisions)
      ensures visibleWidth == VisibleWidth(old(trackViewScheme[..]), drawDivisions)
      ensures topDisplayChannel == Min(old(topDisplayChannel), EDITOR_CHANNELS - visibleChannels + 1)
    {
      ghost var s0 := trackViewScheme[..];
      var n, width := ScanScheme();
      ghost var w := VisibleWidth(s0, drawDivisions);
      assert w == width - (if drawDivisions then 1 else 0);
      if drawDivisions {
        width := width - 1;
      }
      visibleWidth := width;
      visibleChannels := n;
      if topDisplayChannel > EDITOR_CHANNELS - visibleChannels + 1 {
        topDisplayChannel := EDITOR_CHANNELS - visibleChannels + 1;
      }
    }

    /** The loop of recalculate_visible_area: the channel count and the columns of those
        channels with their divisions, the scheme repaired as far as the loop looked. */
    method ScanScheme() returns (n: nat, width: int)
      requires Valid()
      modifies trackViewScheme
      ensures n == VisibleChannels(old(trackViewScheme[..]), drawDivisions)
      ensures width == Columns(old(trackViewScheme[..]), n, drawDivisions)
      ensures trackViewScheme[..] == RepairedScheme(old(trackViewScheme[..]), drawDivisions)
    {
      ghost var s0 := trackViewScheme[..];
      n := 0;
      var last: byte := 0;
      width := 0;
      while n < EDITOR_CHANNELS
        invariant 0 <= n <= EDITOR_CHANNELS && last < NUM_TRACK_VIEWS
        invariant width == Columns(s0, n, drawDivisions)
        invariant last == if n == 0 then 0 else RepairedView(s0, n - 1)
        invariant forall k :: 0 <= k < n ==> Fits(s0, k, drawDivisions)
        invariant forall i :: 0 <= i < EDITOR_CHANNELS ==> trackViewScheme[i] == if i < n then RepairedView(s0, i) else s0[i]
      {
        if trackViewScheme[n] >= NUM_TRACK_VIEWS {
          trackViewScheme[n] := last;
        } else {
          last := trackViewScheme[n];
        }
        assert trackViewScheme[n] == RepairedView(s0, n);
        var newWidth := width + TrackWidth(trackViewScheme[n]);
        if newWidth > MAX_VISIBLE_WIDTH {
          break;
        }
        width := newWidth;
        if drawDivisions {
          width := width + 1;
        }
        n := n + 1;
      }
      ShownChannelsIs(s0, 0, n, drawDivisions);
      ghost var r := RepairedScheme(s0, drawDivisions);
      forall i | 0 <= i < EDITOR_CHANNELS
        ensures trackViewScheme[i] == r[i]
      {
        assert r[i] == if i <= n then RepairedView(s0, i) else s0[i];
      }
      assert trackViewScheme[..] == r;
    }

    /** cfg_load_patedit for the pattern editor's view: draw_divisions from its number, the
        two strings decoded, then the visible area recalculated. */
    method CfgLoad(divisions: int, schemeBuf: seq<byte>, multiBuf: seq<byte>)
      requires Valid() && |schemeBuf| == EDITOR_CHANNELS && |multiBuf| == EDITOR_CHANNELS
      modifies this`drawDivisions, this`channelMultiEnabled, this`visibleWidth, this`visibleChannels
      modifies this`topDisplayChannel, trackViewScheme, channelMulti
      ensures drawDivisions == (divisions != 0)
      ensures var s := DecodedScheme(schemeBuf);
        trackViewScheme[..] == RepairedScheme(s, drawDivisions)
        && visibleChannels == VisibleChannels(s, drawDivisions)
        && visibleWidth == VisibleWidth(s, drawDivisions)
        && topDisplayChannel == Min(old(topDisplayChannel), EDITOR_CHANNELS - visibleChannels + 1)
      ensures channelMulti[..] == DecodedMulti(multiBuf)
      ensures channelMultiEnabled <==> 1 in channelMulti[..]
    {
      drawDivisions := divisions != 0;
      LoadScheme(schemeBuf);
      ghost var s := trackViewScheme[..];
      LoadMulti(multiBuf);
      ghost var m := channelMulti[..];
      assert trackViewScheme[..] == s;
      RecalculateVisibleArea();
      assert channelMulti[..] == m;
    }
  }
}
