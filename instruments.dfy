/** The editing operations of the instrument page (schism/page_instruments.c): the note
    translation table edits, envelope node insertion, the envelope clipboard, and the
    list and table scrolling state. */
module InstrumentPage {
  import opened Bytes
  import opened SongModel

  /** The note translation table covers the 120 notes C-0..B-9; the maps hold 128 entries. */
  const TABLE_NOTES: nat := 120

  // ---------------------------------------------------------------------------
  // instrument_note_trans_transpose

  /** The note map after transposing by dir: each of the 120 entries moved by dir and
      clamped to the note range [1, 120]; the entries past the table kept. */
  function Transposed(m: seq<byte>, dir: int): (r: seq<byte>)
    requires |m| == MAP_SIZE
    ensures |r| == MAP_SIZE
    ensures forall i :: 0 <= i < TABLE_NOTES ==> 1 <= r[i] <= 120
    ensures forall i :: TABLE_NOTES <= i < MAP_SIZE ==> r[i] == m[i]
  {
    seq(MAP_SIZE, i requires 0 <= i < MAP_SIZE => if i < TABLE_NOTES then Clamp(m[i] as int + dir, 1, 120) as byte else m[i])
  }

  /** Transposing back undoes a transposition that stayed inside the note range. */
  lemma TransposeBack(m: seq<byte>, dir: int)
    requires |m| == MAP_SIZE
    requires forall i :: 0 <= i < TABLE_NOTES ==> 1 <= m[i] <= 120 && 1 <= m[i] + dir <= 120
    ensures Transposed(Transposed(m, dir), -dir) == m
  {
    var t := Transposed(m, dir);
    assert forall i :: 0 <= i < TABLE_NOTES ==> t[i] == m[i] + dir;
  }

  /** Transposing by 0 only repairs entries outside the note range. */
  lemma TransposeZero(m: seq<byte>)
    requires |m| == MAP_SIZE && forall i :: 0 <= i < TABLE_NOTES ==> 1 <= m[i] <= 120
    ensures Transposed(m, 0) == m
  {
  }

  /** instrument_note_trans_transpose. */
  method Transpose(ins: Instrument, dir: int)
    requires ins.Valid()
    modifies ins.noteMap
    ensures ins.noteMap[..] == Transposed(old(ins.noteMap[..]), dir)
  {
    ghost var m := ins.noteMap[..];
    var i := 0;
    while i < 120
      invariant 0 <= i <= 120
      invariant forall k :: 0 <= k < i ==> ins.noteMap[k] == Transposed(m, dir)[k]
      invariant forall k :: i <= k < MAP_SIZE ==> ins.noteMap[k] == m[k]
    {
      ins.noteMap[i] := Clamp(ins.noteMap[i] as int + dir, 1, 120) as byte;
      i := i + 1;
    }
  }

  // ---------------------------------------------------------------------------
  // instrument_note_trans_insert and instrument_note_trans_delete

  /** Entries pos..118 moved up one place; the old entry 119 is lost. */
  function ShiftedUp(m: seq<byte>, pos: nat): (r: seq<byte>)
    requires |m| == MAP_SIZE
    ensures |r| == MAP_SIZE
  {
    seq(MAP_SIZE, i requires 0 <= i < MAP_SIZE => if pos < i < TABLE_NOTES then m[i - 1] else m[i])
  }

  /** Entries pos..119 take the entry after them (119 takes entry 120). */
  function ShiftedDown(m: seq<byte>, pos: nat): (r: seq<byte>)
    requires |m| == MAP_SIZE
    ensures |r| == MAP_SIZE
  {
    seq(MAP_SIZE, i requires 0 <= i < MAP_SIZE => if pos <= i < TABLE_NOTES then m[i + 1] else m[i])
  }

  /** The note map after an insert at pos: shifted up, and the row at pos set to one note
      above the row before it (in a byte), or to C-0 on the first row. */
  function NotesInserted(m: seq<byte>, pos: nat): (r: seq<byte>)
    requires |m| == MAP_SIZE && pos < TABLE_NOTES
    ensures |r| == MAP_SIZE
  {
    ShiftedUp(m, pos)[pos := if pos == 0 then 1 else ToByte(m[pos - 1] as int + 1)]
  }

  /** The note map after a delete at pos: shifted down, and row 119 set to one note above
      row 118 (in a byte). */
  function NotesDeleted(m: seq<byte>, pos: nat): (r: seq<byte>)
    requires |m| == MAP_SIZE && pos < TABLE_NOTES
    ensures |r| == MAP_SIZE
  {
    var d := ShiftedDown(m, pos);
    d[119 := ToByte(d[118] as int + 1)]
  }

  /** What an insert does, entry by entry: rows before pos and past the table kept, rows
      pos+1..119 take the row above them, and (sample map) row pos keeps its value. */
  lemma InsertFacts(notes: seq<byte>, samples: seq<byte>, pos: nat)
    requires |notes| == MAP_SIZE && |samples| == MAP_SIZE && pos < TABLE_NOTES
    ensures forall i :: 0 <= i < pos || TABLE_NOTES <= i < MAP_SIZE ==>
      NotesInserted(notes, pos)[i] == notes[i] && ShiftedUp(samples, pos)[i] == samples[i]
    ensures forall i :: pos < i < TABLE_NOTES ==>
      NotesInserted(notes, pos)[i] == notes[i - 1] && ShiftedUp(samples, pos)[i] == samples[i - 1]
    ensures ShiftedUp(samples, pos)[pos] == samples[pos]
    ensures NotesInserted(notes, pos)[pos] == if pos == 0 then 1 else ToByte(notes[pos - 1] as int + 1)
  {
  }

  /** Deleting at the place of an insert gives back every row but 119 (which the insert
      pushed out of the table). */
  lemma DeleteAfterInsert(notes: seq<byte>, samples: seq<byte>, pos: nat)
    requires |notes| == MAP_SIZE && |samples| == MAP_SIZE && pos < TABLE_NOTES
    ensures forall i :: 0 <= i < MAP_SIZE && i != 119 ==>
      NotesDeleted(NotesInserted(notes, pos), pos)[i] == notes[i]
      && ShiftedDown(ShiftedUp(samples, pos), pos)[i] == samples[i]
  {
  }

  /** instrument_note_trans_insert: the downward copy loop over both maps, then the new
      row's note. */
  method Insert(ins: Instrument, pos: nat)
    requires ins.Valid() && pos < TABLE_NOTES
    modifies ins.noteMap, ins.sampleMap
    ensures ins.noteMap[..] == NotesInserted(old(ins.noteMap[..]), pos)
    ensures ins.sampleMap[..] == ShiftedUp(old(ins.sampleMap[..]), pos)
  {
    var nm, sm := ins.noteMap, ins.sampleMap;
    ShiftUp(nm, sm, pos);
    if pos != 0 {
      nm[pos] := ToByte(nm[pos - 1] as int + 1);
    } else {
      nm[0] := 1;
    }
  }

  /** The copy loop of instrument_note_trans_insert, moving rows pos..118 of both maps down. */
  method ShiftUp(nm: array<byte>, sm: array<byte>, pos: nat)
    requires nm != sm && nm.Length == MAP_SIZE && sm.Length == MAP_SIZE && pos < TABLE_NOTES
    modifies nm, sm
    ensures nm[..] == ShiftedUp(old(nm[..]), pos) && sm[..] == ShiftedUp(old(sm[..]), pos)
  {
    ghost var notes, samples := nm[..], sm[..];
    var i := 119;
    while i > pos
      invariant pos <= i <= 119
      invariant forall k :: i < k < TABLE_NOTES ==> nm[k] == notes[k - 1] && sm[k] == samples[k - 1]
      invariant forall k :: 0 <= k <= i || TABLE_NOTES <= k < MAP_SIZE ==> nm[k] == notes[k] && sm[k] == samples[k]
    {
      nm[i] := nm[i - 1];
      sm[i] := sm[i - 1];
      i := i - 1;
    }
    assert nm[..] == ShiftedUp(notes, pos);
    assert sm[..] == ShiftedUp(samples, pos);
  }

  /** instrument_note_trans_delete: the upward copy loop over both maps (row 119 reads
      entry 120, which the 128-entry maps hold), then row 119's note. */
  method Delete(ins: Instrument, pos: nat)
    requires ins.Valid() && pos < TABLE_NOTES
    modifies ins.noteMap, ins.sampleMap
    ensures ins.noteMap[..] == NotesDeleted(old(ins.noteMap[..]), pos)
    ensures ins.sampleMap[..] == ShiftedDown(old(ins.sampleMap[..]), pos)
  {
    var nm, sm := ins.noteMap, ins.sampleMap;
    ShiftDown(nm, sm, pos);
    nm[119] := ToByte(nm[118] as int + 1);
  }

  /** The copy loop of instrument_note_trans_delete, moving rows pos+1..120 of both maps up. */
  method ShiftDown(nm: array<byte>, sm: array<byte>, pos: nat)
    requires nm != sm && nm.Length == MAP_SIZE && sm.Length == MAP_SIZE && pos < TABLE_NOTES
    modifies nm, sm
    ensures nm[..] == ShiftedDown(old(nm[..]), pos) && sm[..] == ShiftedDown(old(sm[..]), pos)
  {
    ghost var notes, samples := nm[..], sm[..];
    var i := pos;
    while i < 120
      invariant pos <= i <= 120
      invariant forall k :: pos <= k < i ==> nm[k] == notes[k + 1] && sm[k] == samples[k + 1]
      invariant forall k :: 0 <= k < pos || i <= k < MAP_SIZE ==> nm[k] == notes[k] && sm[k] == samples[k]
    {
      nm[i] := nm[i + 1];
      sm[i] := sm[i + 1];
      i := i + 1;
    }
    assert nm[..] == ShiftedDown(notes, pos);
    assert sm[..] == ShiftedDown(samples, pos);
  }

  // ---------------------------------------------------------------------------
  // The repair in note_trans_draw

  /** The 32 rows shown from `top`, each note outside [1, 120] replaced by its own row's
      note (row n translates to note n + 1). */
  function Repaired(m: seq<byte>, top: nat): (r: seq<byte>)
    requires |m| == MAP_SIZE && top + 32 <= MAP_SIZE
    ensures |r| == MAP_SIZE
  {
    seq(MAP_SIZE, i requires 0 <= i < MAP_SIZE =>
      if top <= i < top + 32 && (m[i] < 1 || m[i] > 120) then (i + 1) as byte else m[i])
  }

  /** After the repair every shown row holds a note, valid notes are untouched, and a
      second repair changes nothing. */
  lemma RepairedFacts(m: seq<byte>, top: nat)
    requires |m| == MAP_SIZE && top + 32 <= TABLE_NOTES
    ensures forall i :: top <= i < top + 32 ==> 1 <= Repaired(m, top)[i] <= 120
    ensures forall i :: 0 <= i < MAP_SIZE && (i < top || i >= top + 32 || 1 <= m[i] <= 120) ==>
      Repaired(m, top)[i] == m[i]
    ensures Repaired(Repaired(m, top), top) == Repaired(m, top)
  {
  }

  /** The repair loop of note_trans_draw (the drawing itself is not modelled). */
  method RepairShown(ins: Instrument, top: nat)
    requires ins.Valid() && top + 32 <= MAP_SIZE
    modifies ins.noteMap
    ensures ins.noteMap[..] == Repaired(old(ins.noteMap[..]), top)
  {
    ghost var m := ins.noteMap[..];
    var pos, n := 0, top;
    while pos < 32
      invariant 0 <= pos <= 32 && n == top + pos
      invariant forall k :: 0 <= k < MAP_SIZE ==>
        ins.noteMap[k] == if k < n then Repaired(m, top)[k] else m[k]
    {
      if ins.noteMap[n] < 1 || ins.noteMap[n] > 120 {
        ins.noteMap[n] := (n + 1) as byte;
      }
      pos, n := pos + 1, n + 1;
    }
  }

  // ---------------------------------------------------------------------------
  // _env_node_add

  /** The first `nodes` ticks strictly increase. */
  ghost predicate Ascending(t: seq<int>, nodes: nat)
    requires nodes <= |t|
  {
    forall i, j :: 0 <= i < j < nodes ==> t[i] < t[j]
  }

  /** A node array after x is placed at c + 1 and nodes c + 1..n - 1 move up one. */
  function NodeInserted<T>(s: seq<T>, c: nat, n: nat, x: T): (r: seq<T>)
    requires c < n < |s|
    ensures |r| == |s|
  {
    s[..c + 1] + [x] + s[c + 1..n] + s[n + 1..]
  }

  /** The midpoint tick C's `/` gives between two non-negative ticks. */
  function MidTick(a: int, b: int): int {
    CDiv(a + b, 2)
  }

  /** A midpoint that differs from both neighbours lies strictly between them, so the
      ticks stay ascending with the new node. */
  lemma MidpointKeepsOrder(t: seq<int>, c: nat, n: nat)
    requires c + 1 < n < |t| && Ascending(t, n) && t[c] >= 0
    requires MidTick(t[c], t[c + 1]) != t[c] && MidTick(t[c], t[c + 1]) != t[c + 1]
    ensures Ascending(NodeInserted(t, c, n, MidTick(t[c], t[c + 1])), n + 1)
  {
    var m := MidTick(t[c], t[c + 1]);
    assert t[c] < m < t[c + 1];
    var r := NodeInserted(t, c, n, m);
    assert forall i :: 0 <= i <= c ==> r[i] == t[i];
    assert r[c + 1] == m;
    assert forall i :: c + 2 <= i <= n ==> r[i] == t[i - 1];
  }

  /** An index field of the envelope after a node is inserted after node c. */
  function Bumped(index: int, c: int): int {
    if index > c then index + 1 else index
  }

  /** The cases in which _env_node_add leaves the envelope alone: more than 24 nodes, the
      current node is the last, or (without an override) the midpoint tick equals a
      neighbour's so there is no room. */
  predicate NoRoom(e: EnvelopeCopy, c: nat, overrideTick: int, overrideValue: int)
    requires |e.ticks| == ENV_CAPACITY && c < e.nodes
  {
    e.nodes > 24 || c == e.nodes - 1
    || (!(overrideTick > -1 && overrideValue > -1)
        && (MidTick(e.ticks[c], e.ticks[c + 1]) == e.ticks[c] || MidTick(e.ticks[c], e.ticks[c + 1]) == e.ticks[c + 1]))
  }

  /** The envelope after _env_node_add: unchanged when there is no room, otherwise a node
      after the current one with the override (both parts given) or the midpoint tick and
      value, later nodes moved up, and the loop and sustain indices past it incremented. */
  function NodeAdded(e: EnvelopeCopy, c: nat, overrideTick: int, overrideValue: int): (r: EnvelopeCopy)
    requires |e.ticks| == ENV_CAPACITY && |e.values| == ENV_CAPACITY && c < e.nodes
    ensures |r.ticks| == ENV_CAPACITY && |r.values| == ENV_CAPACITY
    ensures NoRoom(e, c, overrideTick, overrideValue) <==> r == e
    ensures !NoRoom(e, c, overrideTick, overrideValue) ==> r.nodes == e.nodes + 1
  {
    if NoRoom(e, c, overrideTick, overrideValue) then e
    else
      var useOverride := overrideTick > -1 && overrideValue > -1;
      var tick := if useOverride then overrideTick else MidTick(e.ticks[c], e.ticks[c + 1]);
      var value := if useOverride then ToByte(overrideValue) else (e.values[c] as int + e.values[c + 1] as int) / 2;
      EnvelopeCopy(NodeInserted(e.ticks, c, e.nodes, tick), NodeInserted(e.values, c, e.nodes, value as byte),
                   e.nodes + 1, Bumped(e.loopStart, c), Bumped(e.loopEnd, c),
                   Bumped(e.sustainStart, c), Bumped(e.sustainEnd, c))
  }

  /** _env_node_add; the current node is returned either way. */
  method AddNode(env: Envelope, current: int, overrideTick: int, overrideValue: int) returns (r: int)
    requires env.Valid() && 0 <= current < env.nodes
    modifies env`nodes, env`loopStart, env`loopEnd, env`sustainStart, env`sustainEnd, env.ticks, env.values
    ensures r == current
    ensures Snapshot(env) == NodeAdded(old(Snapshot(env)), current, overrideTick, overrideValue)
  {
    ghost var e := Snapshot(env);
    r := current;
    if env.nodes > 24 || current == env.nodes - 1 {
      return;
    }
    var newtick := CDiv(env.ticks[current] + env.ticks[current + 1], 2);
    var newvalue := (env.values[current] as int + env.values[current + 1] as int) / 2;
    if overrideTick > -1 && overrideValue > -1 {
      newtick := overrideTick;
      newvalue := ToByte(overrideValue);
    } else if newtick == env.ticks[current] || newtick == env.ticks[current + 1] {
      return;
    }
    PlaceNode(env, current, newtick, newvalue as byte);
  }

  /** The insertion step of _env_node_add once room is found. */
  method PlaceNode(env: Envelope, current: nat, tick: int, value: byte)
    requires env.Valid() && current + 1 < env.nodes <= 24
    modifies env`nodes, env`loopStart, env`loopEnd, env`sustainStart, env`sustainEnd, env.ticks, env.values
    ensures env.ticks[..] == NodeInserted(old(env.ticks[..]), current, old(env.nodes), tick)
    ensures env.values[..] == NodeInserted(old(env.values[..]), current, old(env.nodes), value)
    ensures env.nodes == old(env.nodes) + 1
    ensures env.loopStart == Bumped(old(env.loopStart), current) && env.loopEnd == Bumped(old(env.loopEnd), current)
    ensures env.sustainStart == Bumped(old(env.sustainStart), current)
    ensures env.sustainEnd == Bumped(old(env.sustainEnd), current)
  {
    env.nodes := env.nodes + 1;
    InsertAfter(env.ticks, current, env.nodes, tick);
    InsertAfter(env.values, current, env.nodes, value);
    if env.loopEnd > current { env.loopEnd := env.loopEnd + 1; }
    if env.loopStart > current { env.loopStart := env.loopStart + 1; }
    if env.sustainEnd > current { env.sustainEnd := env.sustainEnd + 1; }
    if env.sustainStart > current { env.sustainStart := env.sustainStart + 1; }
  }

  /** The memmove of _env_node_add followed by the store of the new node after node c. */
  method InsertAfter<T>(a: array<T>, c: nat, n: nat, x: T)
    requires c + 1 < n <= a.Length
    modifies a
    ensures a[..] == NodeInserted(old(a[..]), c, n - 1, x)
  {
    ghost var o := a[..];
    ShiftNodes(a, c, n);
    a[c + 1] := x;
    var r := NodeInserted(o, c, n - 1, x);
    assert forall i :: 0 <= i < a.Length ==> a[i] == r[i];
  }

  /** The memmove of _env_node_add: elements c..n-2 moved to c+1..n-1, copied from the top
      down as an overlapping move must be. */
  method ShiftNodes<T>(a: array<T>, c: nat, n: nat)
    requires c + 1 < n <= a.Length
    modifies a
    ensures forall i :: 0 <= i < a.Length ==> a[i] == if c < i < n then old(a[i - 1]) else old(a[i])
  {
    var i := n - 1;
    while i > c
      invariant c <= i <= n - 1
      invariant forall k :: 0 <= k < a.Length ==> a[k] == if i < k < n then old(a[k - 1]) else old(a[k])
    {
      a[i] := a[i - 1];
      i := i - 1;
    }
  }

  /** A midpoint insertion into an ascending envelope keeps it ascending. */
  lemma AddNodeKeepsOrder(e: EnvelopeCopy, c: nat)
    requires |e.ticks| == ENV_CAPACITY && |e.values| == ENV_CAPACITY && c < e.nodes
    requires e.nodes <= ENV_CAPACITY && Ascending(e.ticks, e.nodes) && e.ticks[c] >= 0
    ensures var r := NodeAdded(e, c, -1, -1); r.nodes <= ENV_CAPACITY && Ascending(r.ticks, r.nodes)
  {
    if !NoRoom(e, c, -1, -1) {
      MidpointKeepsOrder(e.ticks, c, e.nodes);
    }
  }

  // ---------------------------------------------------------------------------
  // save_envelope and restore_envelope

  /** The envelope the flag bits belong to. */
  datatype Section = VolumeSection | PanningSection | PitchSection

  /** The flag bits of a section: on, sustain, loop, carry, and the extra bit (none for
      the volume envelope, SETPANNING for panning, FILTER for pitch). */
  function SectionBits(sec: Section): set<EnvFlag> {
    match sec
    case VolumeSection => {EnvVolume, EnvVolSustain, EnvVolLoop, EnvVolCarry}
    case PanningSection => {EnvPanning, EnvPanSustain, EnvPanLoop, EnvPanCarry, EnvSetPanning}
    case PitchSection => {EnvPitch, EnvPitchSustain, EnvPitchLoop, EnvPitchCarry, EnvFilter}
  }

  /** The bits save_envelope stores for a section: the four volume bits, which stand for the
      section's on, sustain, loop and carry bits, and the section's extra bit as is. */
  function SavedDomain(sec: Section): set<EnvFlag> {
    match sec
    case VolumeSection => SectionBits(VolumeSection)
    case PanningSection => SectionBits(VolumeSection) + {EnvSetPanning}
    case PitchSection => SectionBits(VolumeSection) + {EnvFilter}
  }

  /** The section bit a stored bit stands for. */
  function FromSaved(y: EnvFlag, sec: Section): EnvFlag {
    match sec
    case VolumeSection => y
    case PanningSection =>
      (match y
       case EnvVolume => EnvPanning
       case EnvVolSustain => EnvPanSustain
       case EnvVolLoop => EnvPanLoop
       case EnvVolCarry => EnvPanCarry
       case _ => y)
    case PitchSection =>
      (match y
       case EnvVolume => EnvPitch
       case EnvVolSustain => EnvPitchSustain
       case EnvVolLoop => EnvPitchLoop
       case EnvVolCarry => EnvPitchCarry
       case _ => y)
  }

  /** The stored bit a section bit is kept in. */
  function ToSaved(x: EnvFlag, sec: Section): EnvFlag {
    match x
    case EnvPanning => EnvVolume
    case EnvPitch => EnvVolume
    case EnvPanSustain => EnvVolSustain
    case EnvPitchSustain => EnvVolSustain
    case EnvPanLoop => EnvVolLoop
    case EnvPitchLoop => EnvVolLoop
    case EnvPanCarry => EnvVolCarry
    case EnvPitchCarry => EnvVolCarry
    case _ => x
  }

  /** The flags save_envelope keeps: each stored bit set exactly when the section bit it
      stands for is set in the instrument. */
  function SavedBits(f: set<EnvFlag>, sec: Section): set<EnvFlag> {
    set y | y in SavedDomain(sec) && FromSaved(y, sec) in f
  }

  /** The instrument flags restore_envelope leaves: every bit outside the section as it was,
      and each section bit set exactly when the stored bit it is kept in is set. */
  function RestoredBits(f: set<EnvFlag>, saved: set<EnvFlag>, sec: Section): set<EnvFlag> {
    (f - SectionBits(sec)) + set x | x in SectionBits(sec) && ToSaved(x, sec) in saved
  }

  /** Saving one instrument's section and restoring it into another instrument's flags
      carries exactly that section's bits across and keeps every other bit of the target. */
  lemma SaveRestoreRoundTrip(f: set<EnvFlag>, g: set<EnvFlag>, sec: Section)
    ensures RestoredBits(g, SavedBits(f, sec), sec) == (g - SectionBits(sec)) + f * SectionBits(sec)
  {
    var r := RestoredBits(g, SavedBits(f, sec), sec);
    forall x ensures x in r <==> x in (g - SectionBits(sec)) + f * SectionBits(sec) {
      if x in SectionBits(sec) {
        SectionBitTrips(sec, x);
      }
    }
  }

  /** A section bit is kept in a stored bit that stands for it again. */
  lemma SectionBitTrips(sec: Section, x: EnvFlag)
    requires x in SectionBits(sec)
    ensures ToSaved(x, sec) in SavedDomain(sec) && FromSaved(ToSaved(x, sec), sec) == x
  {
  }

  /** A value copy of a `song_envelope_t`. */
  datatype EnvelopeCopy = EnvelopeCopy(ticks: seq<int>, values: seq<byte>, nodes: int,
                                       loopStart: int, loopEnd: int, sustainStart: int, sustainEnd: int)

  const EMPTY_COPY: EnvelopeCopy := EnvelopeCopy(seq(ENV_CAPACITY, _ => 0), seq(ENV_CAPACITY, _ => 0), 0, 0, 0, 0, 0)

  /** The memcpy image of an envelope. */
  ghost function Snapshot(e: Envelope): EnvelopeCopy
    reads e, e.ticks, e.values
  {
    EnvelopeCopy(e.ticks[..], e.values[..], e.nodes, e.loopStart, e.loopEnd, e.sustainStart, e.sustainEnd)
  }

  /** The slot the clipboard uses for `slot`: the int converted to unsigned, modulo 10. */
  function SlotIndex(slot: int): (k: nat)
    ensures k < 10
    ensures 0 <= slot < U32_MOD ==> k == slot % 10
  {
    U32(slot) % 10
  }

  /** The two static tables `saved_env[10]` and `flags[10]`. */
  class EnvelopeClipboard {
    var saved: seq<EnvelopeCopy>
    var savedFlags: seq<set<EnvFlag>>

    ghost predicate Valid()
      reads this
    {
      |saved| == 10 && |savedFlags| == 10
      && forall k :: 0 <= k < 10 ==> |saved[k].ticks| == ENV_CAPACITY && |saved[k].values| == ENV_CAPACITY
    }

    /** Both tables zero-initialised, as static storage is. */
    constructor ()
      ensures Valid() && saved == seq(10, _ => EMPTY_COPY) && savedFlags == seq(10, _ => {})
    {
      saved := seq(10, _ => EMPTY_COPY);
      savedFlags := seq(10, _ => {});
    }

    /** save_envelope: copy the envelope and the section's flag bits of the current
        instrument into slot `slot mod 10`. */
    method Save(slot: int, e: Envelope, ins: Instrument, sec: Section)
      requires Valid() && e.Valid()
      modifies this
      ensures Valid()
      ensures saved == old(saved)[SlotIndex(slot) := Snapshot(e)]
      ensures savedFlags == old(savedFlags)[SlotIndex(slot) := SavedBits(ins.flags, sec)]
    {
      var k := U32(slot) % 10;
      saved := saved[k := EnvelopeCopy(e.ticks[..], e.values[..], e.nodes, e.loopStart, e.loopEnd,
                                       e.sustainStart, e.sustainEnd)];
      var bits := SaveFlags(ins.flags, sec);
      savedFlags := savedFlags[k := bits];
    }

    /** restore_envelope: copy slot `slot mod 10` back over the envelope, clear the
        section's flag bits of the current instrument and set them from the saved ones. */
    method Restore(slot: int, e: Envelope, ins: Instrument, sec: Section)
      requires Valid() && e.Valid()
      modifies e`nodes, e`loopStart, e`loopEnd, e`sustainStart, e`sustainEnd, e.ticks, e.values, ins`flags
      ensures Snapshot(e) == saved[SlotIndex(slot)]
      ensures ins.flags == RestoredBits(old(ins.flags), savedFlags[SlotIndex(slot)], sec)
    {
      var k := U32(slot) % 10;
      var copy := saved[k];
      CopyInto(e.ticks, copy.ticks);
      CopyInto(e.values, copy.values);
      e.nodes, e.loopStart, e.loopEnd := copy.nodes, copy.loopStart, copy.loopEnd;
      e.sustainStart, e.sustainEnd := copy.sustainStart, copy.sustainEnd;
      RestoreFlags(ins, savedFlags[k], sec);
    }
  }

  /** The flag switch of save_envelope. */
  method SaveFlags(f: set<EnvFlag>, sec: Section) returns (bits: set<EnvFlag>)
    ensures bits == SavedBits(f, sec)
  {
    match sec {
      case VolumeSection =>
        bits := f * {EnvVolume, EnvVolSustain, EnvVolLoop, EnvVolCarry};
      case PanningSection =>
        bits := {};
        if EnvPanning in f { bits := bits + {EnvVolume}; }
        if EnvPanSustain in f { bits := bits + {EnvVolSustain}; }
        if EnvPanLoop in f { bits := bits + {EnvVolLoop}; }
        if EnvPanCarry in f { bits := bits + {EnvVolCarry}; }
        bits := bits + f * {EnvSetPanning};
      case PitchSection =>
        bits := {};
        if EnvPitch in f { bits := bits + {EnvVolume}; }
        if EnvPitchSustain in f { bits := bits + {EnvVolSustain}; }
        if EnvPitchLoop in f { bits := bits + {EnvVolLoop}; }
        if EnvPitchCarry in f { bits := bits + {EnvVolCarry}; }
        bits := bits + f * {EnvFilter};
    }
  }

  /** The flag switch of restore_envelope. */
  method RestoreFlags(ins: Instrument, s: set<EnvFlag>, sec: Section)
    modifies ins`flags
    ensures ins.flags == RestoredBits(old(ins.flags), s, sec)
  {
    var f := ins.flags;
    match sec {
      case VolumeSection =>
        f := f - {EnvVolume, EnvVolSustain, EnvVolLoop, EnvVolCarry};
        f := f + s * {EnvVolume, EnvVolSustain, EnvVolLoop, EnvVolCarry};
      case PanningSection =>
        f := RestorePanning(f, s);
      case PitchSection =>
        f := RestorePitch(f, s);
    }
    ins.flags := f;
  }

  /** The ENV_PANNING case of restore_envelope. */
  method RestorePanning(f0: set<EnvFlag>, s: set<EnvFlag>) returns (f: set<EnvFlag>)
    ensures f == RestoredBits(f0, s, PanningSection)
  {
    f := f0 - {EnvPanning, EnvPanSustain, EnvPanLoop, EnvPanCarry, EnvSetPanning};
    if EnvVolume in s { f := f + {EnvPanning}; }
    if EnvVolSustain in s { f := f + {EnvPanSustain}; }
    if EnvVolLoop in s { f := f + {EnvPanLoop}; }
    if EnvVolCarry in s { f := f + {EnvPanCarry}; }
    f := f + s * {EnvSetPanning};
  }

  /** The ENV_PITCH case of restore_envelope. */
  method RestorePitch(f0: set<EnvFlag>, s: set<EnvFlag>) returns (f: set<EnvFlag>)
    ensures f == RestoredBits(f0, s, PitchSection)
  {
    f := f0 - {EnvPitch, EnvPitchSustain, EnvPitchLoop, EnvPitchCarry, EnvFilter};
    if EnvVolume in s { f := f + {EnvPitch}; }
    if EnvVolSustain in s { f := f + {EnvPitchSustain}; }
    if EnvVolLoop in s { f := f + {EnvPitchLoop}; }
    if EnvVolCarry in s { f := f + {EnvPitchCarry}; }
    f := f + s * {EnvFilter};
  }

  /** The element copy of a memcpy into an array. */
  method CopyInto<T>(a: array<T>, s: seq<T>)
    requires a.Length == |s|
    modifies a
    ensures a[..] == s
  {
    var i := 0;
    while i < a.Length
      invariant 0 <= i <= a.Length && a[..i] == s[..i]
    {
      a[i] := s[i];
      assert a[..i + 1] == a[..i] + [a[i]] && s[..i + 1] == s[..i] + [s[i]];
      i := i + 1;
    }
  }

  // ---------------------------------------------------------------------------
  // The scrolling state of the page

  /** The static cursor variables of the instrument list and the note translation table. */
  class PageState {
    var topInstrument: int
    var currentInstrument: int
    var noteTransTop: int
    var noteTransSel: int
    var noteTransCursor: int

    /** The ranges the page keeps: a list top from 1 (instrument_set may select 0 away
        from the list page);
        a table top that leaves 32 rows inside the 120, a selected row in the table, and
        one of the four cursor columns (note, octave, two sample digits). */
    ghost predicate Valid()
      reads this
    {
      1 <= topInstrument && 0 <= currentInstrument
      && 0 <= noteTransTop <= 88 && 0 <= noteTransSel < 120 && 0 <= noteTransCursor <= 3
    }

    /** The initial values of the statics. */
    constructor ()
      ensures Valid() && topInstrument == 1 && currentInstrument == 1
      ensures noteTransTop == 0 && noteTransSel == 0 && noteTransCursor == 0
    {
      topInstrument, currentInstrument := 1, 1;
      noteTransTop, noteTransSel, noteTransCursor := 0, 0, 0;
    }

    /** instrument_list_reposition: scroll the list just enough that the current
        instrument is among the 35 rows shown, never above instrument 1. */
    method ListReposition()
      requires Valid()
      modifies this`topInstrument
      ensures Valid()
      ensures currentInstrument >= 1 ==> topInstrument <= currentInstrument <= topInstrument + 34
      ensures currentInstrument == 0 ==> topInstrument == 1
      ensures old(topInstrument) <= currentInstrument <= old(topInstrument) + 34 ==> topInstrument == old(topInstrument)
      ensures 1 <= currentInstrument < old(topInstrument) ==> topInstrument == currentInstrument
      ensures currentInstrument > old(topInstrument) + 34 ==> topInstrument == currentInstrument - 34
    {
      if currentInstrument < topInstrument {
        topInstrument := currentInstrument;
        if topInstrument < 1 {
          topInstrument := 1;
        }
      } else if currentInstrument > topInstrument + 34 {
        topInstrument := currentInstrument - 34;
      }
    }

    /** note_trans_reposition: scroll the table just enough that the selected row is among
        the 32 rows shown. */
    method NoteTransReposition()
      requires Valid()
      modifies this`noteTransTop
      ensures Valid()
      ensures noteTransTop <= noteTransSel <= noteTransTop + 31
      ensures old(noteTransTop) <= noteTransSel <= old(noteTransTop) + 31 ==> noteTransTop == old(noteTransTop)
      ensures noteTransSel < old(noteTransTop) ==> noteTransTop == noteTransSel
      ensures noteTransSel > old(noteTransTop) + 31 ==> noteTransTop == noteTransSel - 31
    {
      if noteTransSel < noteTransTop {
        noteTransTop := noteTransSel;
      } else if noteTransSel > noteTransTop + 31 {
        noteTransTop := noteTransSel - 31;
      }
    }

    /** The end of note_trans_handle_key: clamp the new row to the table and the cursor to
        its four columns; a changed row becomes the selection and is scrolled into view. */
    method FinishKey(newLine: int, newPos: int)
      requires Valid()
      modifies this`noteTransSel, this`noteTransTop, this`noteTransCursor
      ensures Valid()
      ensures noteTransCursor == Clamp(newPos, 0, 3)
      ensures noteTransSel == Clamp(newLine, 0, 119)
      ensures Clamp(newLine, 0, 119) != old(noteTransSel) ==> noteTransTop <= noteTransSel <= noteTransTop + 31
      ensures Clamp(newLine, 0, 119) != old(noteTransSel) && old(noteTransTop) <= noteTransSel <= old(noteTransTop) + 31 ==>
        noteTransTop == old(noteTransTop)
      ensures Clamp(newLine, 0, 119) != old(noteTransSel) && noteTransSel < old(noteTransTop) ==> noteTransTop == noteTransSel
      ensures Clamp(newLine, 0, 119) != old(noteTransSel) && noteTransSel > old(noteTransTop) + 31 ==>
        noteTransTop == noteTransSel - 31
      ensures Clamp(newLine, 0, 119) == old(noteTransSel) ==> noteTransTop == old(noteTransTop)
    {
      var line := Clamp(newLine, 0, 119);
      noteTransCursor := Clamp(newPos, 0, 3);
      if line != noteTransSel {
        noteTransSel := line;
        NoteTransReposition();
      }
    }

    /** The octave column of note_trans_handle_key with digit c: the selected row's note
        keeps its semitone and moves to octave c, then the selection moves down a row. */
    method OctaveKey(ins: Instrument, c: int)
      requires Valid() && ins.Valid() && 0 <= c <= 9
      modifies ins.noteMap, this`noteTransSel, this`noteTransTop, this`noteTransCursor
      ensures Valid()
      ensures ins.noteMap[..] == old(ins.noteMap[..])[old(noteTransSel) := OctaveNote(old(ins.noteMap[noteTransSel]), c)]
      ensures noteTransSel == Clamp(old(noteTransSel) + 1, 0, 119) && noteTransCursor == old(noteTransCursor)
      ensures old(noteTransSel) == 119 ==> noteTransTop == old(noteTransTop)
      ensures old(noteTransSel) < 119 ==> noteTransTop <= noteTransSel <= noteTransTop + 31
      ensures old(noteTransSel) < 119 && old(noteTransTop) <= noteTransSel <= old(noteTransTop) + 31 ==>
        noteTransTop == old(noteTransTop)
      ensures old(noteTransSel) < 119 && noteTransSel < old(noteTransTop) ==> noteTransTop == noteTransSel
      ensures old(noteTransSel) < 119 && noteTransSel > old(noteTransTop) + 31 ==> noteTransTop == noteTransSel - 31
    {
      var n: int := ins.noteMap[noteTransSel];
      n := CMod(n - 1, 12) + 12 * c + 1;
      ins.noteMap[noteTransSel] := ToByte(n);
      FinishKey(noteTransSel + 1, noteTransCursor);
    }
  }

  /** The octave edit's note: ((n - 1) % 12) + 12c + 1 with C's `%`, stored in a byte. */
  function OctaveNote(n: byte, c: int): byte {
    ToByte(CMod(n - 1, 12) + 12 * c + 1)
  }

  /** For a note (n >= 1) the octave edit keeps the semitone, sets the octave to c and
      stays in the note range. */
  lemma OctaveNoteFacts(n: byte, c: int)
    requires 1 <= n && 0 <= c <= 9
    ensures 1 <= OctaveNote(n, c) <= 120
    ensures (OctaveNote(n, c) - 1) % 12 == (n - 1) % 12 && (OctaveNote(n, c) - 1) / 12 == c
  {
    var m := CMod(n - 1, 12);
    assert 0 <= m < 12;
    assert n - 1 == CDiv(n - 1, 12) * 12 + m;
    DivModUnique(n - 1, 12, CDiv(n - 1, 12), m);
    DivModUnique(m + 12 * c, 12, c, m);
  }
}
