/** The byte-level part of midi-core.c: decoding a received MIDI message into the event
    the tracker reacts to, sizing the outgoing delay queue and appending to one of its
    10-millisecond slots, and the sparse table of registered MIDI ports. */
module Midi {
  import opened Bytes

  /** The note statuses of midi_event_note. */
  datatype NoteStatus = NoteOff | NoteOn | KeyPress

  /** One event emitted by midi_received_cb, with the fields its midi_event_* callee passes on. */
  datatype MidiEvent =
    | Note(status: NoteStatus, channel: nat, note: byte, velocity: byte)
    | Controller(channel: nat, param: byte, value: byte)
    | Program(channel: nat, value: byte)
    | Aftertouch(channel: nat, value: byte)
    | Pitchbend(channel: nat, value: byte)
    | System(argv: nat, word: nat)
    | Tick
    | Sysex(payload: seq<byte>)

  /** The four bytes the decoder looks at: a message shorter than 4 bytes is copied into a
      zeroed 4-byte buffer first. */
  function Padded(data: seq<byte>): (d: seq<byte>)
    ensures |d| == Max(|data|, 4)
    ensures d[..|data|] == data
    ensures forall k :: |data| <= k < |d| ==> d[k] == 0
  {
    if |data| < 4 then data + Zeros(4 - |data|) else data
  }

  /** midi_received_cb: the events one incoming message produces (none or one). The high
      nibble of the status byte selects the message, the low nibble the channel; a Note On
      with velocity 0 is a Note Off; a pitch-bend passes only its first data byte on. */
  function Received(data: seq<byte>): (r: seq<MidiEvent>)
    ensures |r| <= 1
    ensures |data| == 0 ==> r == []
    ensures |data| > 0 && data[0] < 0x80 ==> r == []
  {
    if |data| == 0 then []
    else
      var d := Padded(data);
      var cmd := d[0] / 16;
      var channel := d[0] % 16;
      if cmd == 0x8 || (cmd == 0x9 && d[2] == 0) then [Note(NoteOff, channel, d[1], 0)]
      else if cmd == 0x9 then [Note(NoteOn, channel, d[1], d[2])]
      else if cmd == 0xA then [Note(KeyPress, channel, d[1], d[2])]
      else if cmd == 0xB then [Controller(channel, d[1], d[2])]
      else if cmd == 0xC then [Program(channel, d[1])]
      else if cmd == 0xD then [Aftertouch(channel, d[1])]
      else if cmd == 0xE then [Pitchbend(channel, d[1])]
      else if cmd == 0xF then
        if channel == 0 then
          if |data| <= 2 then [] else [Sysex(d[1..|data| - 1])]
        else if channel == 6 then [Tick]
        else [System(channel, (d[1] as int) + (d[2] as int) * 0x100 + (d[3] as int) * 0x1_0000)]
      else []
  }

  /** A Note On with velocity 0 is reported as a Note Off of velocity 0, on the same
      channel and note. */
  lemma NoteOnZeroIsNoteOff(channel: nat, note: byte)
    requires channel < 16
    ensures Received([0x90 + channel, note, 0]) == [Note(NoteOff, channel, note, 0)]
  {
    var d := Padded([0x90 + channel, note, 0]);
    assert d[0] == 0x90 + channel && d[1] == note && d[2] == 0;
  }

  /** Every channel voice message is decoded on the channel its status byte names. */
  lemma ChannelOfVoiceMessage(data: seq<byte>)
    requires |data| > 0 && 0x80 <= data[0] < 0xF0
    ensures |Received(data)| == 1
    ensures !Received(data)[0].Tick? && !Received(data)[0].Sysex? && !Received(data)[0].System?
    ensures Received(data)[0].channel == data[0] % 16
  {
    assert Padded(data)[0] == data[0];
  }

  /** The wire form of an event, as a sending device would transmit it. */
  function Encode(e: MidiEvent): (m: seq<byte>)
    requires Encodable(e)
    ensures |m| >= 1 && m[0] >= 0x80
  {
    match e
    case Note(status, channel, note, velocity) =>
      var base := match status case NoteOff => 0x80 case NoteOn => 0x90 case KeyPress => 0xA0;
      [base + channel, note, velocity]
    case Controller(channel, param, value) => [0xB0 + channel, param, value]
    case Program(channel, value) => [0xC0 + channel, value]
    case Aftertouch(channel, value) => [0xD0 + channel, value]
    case Pitchbend(channel, value) => [0xE0 + channel, value, 0]
    case System(argv, word) => [0xF0 + argv, word % 0x100, (word / 0x100) % 0x100, word / 0x1_0000]
    case Tick => [0xF6]
    case Sysex(payload) => [0xF0] + payload + [0xF7]
  }

  /** The events a message can produce: a channel below 16, a Note Off of velocity 0 and a
      Note On of a nonzero one, a system code other than sysex and tick with a 24-bit
      parameter, and a sysex with at least one payload byte. */
  predicate Encodable(e: MidiEvent) {
    match e
    case Note(status, channel, _, velocity) =>
      channel < 16 && (status == NoteOff ==> velocity == 0) && (status == NoteOn ==> velocity > 0)
    case Controller(channel, _, _) => channel < 16
    case Program(channel, _) => channel < 16
    case Aftertouch(channel, _) => channel < 16
    case Pitchbend(channel, _) => channel < 16
    case System(argv, word) => 0 < argv < 16 && argv != 6 && word < 0x100_0000
    case Tick => true
    case Sysex(payload) => |payload| >= 1
  }

  /** Decoding a transmitted event gives that event back. */
  lemma {:induction false} ReceivedEncode(e: MidiEvent)
    requires Encodable(e)
    ensures Received(Encode(e)) == [e]
  {
    var m := Encode(e);
    var d := Padded(m);
    assert d[..|m|] == m;
    assert forall k :: 0 <= k < |m| ==> d[k] == m[k];
    match e
    case System(argv, word) =>
      assert d[0] / 16 == 0xF && d[0] % 16 == argv;
      assert word % 0x100 + ((word / 0x100) % 0x100) * 0x100 + (word / 0x1_0000) * 0x1_0000 == word;
    case Sysex(payload) =>
      assert d[1..|m| - 1] == payload;
    case _ =>
  }

  /** The size of one queue entry's byte buffer (struct qent's b[391]). */
  const QENT_BYTES: nat := 391

  /** The outgoing MIDI queue: midims, ms10s, qlen and the calloc'd entries qq, each the
      bytes stored in that 10-millisecond slot so far (its `used` count is the length). */
  class MidiQueue {
    var midims: int
    var ms10s: int
    var qlen: int
    var entries: seq<seq<byte>>

    ghost predicate Valid()
      reads this
    {
      (midims == 0 || (ms10s > 0 && midims == 10 * ms10s))
      && qlen == |entries|
      && forall i :: 0 <= i < |entries| ==> |entries[i]| <= QENT_BYTES
    }

    /** The state before the first allocation: no queue. */
    constructor ()
      ensures Valid() && midims == 0 && entries == []
    {
      midims, ms10s, qlen, entries := 0, 0, 0, [];
    }

    /** midi_queue_alloc: ms10s is the bytes of audio per 10 ms (sample_size times the
        rate, rounded up to a multiple of 80, over 80), midims the bytes per millisecond;
        the queue gets one empty entry per 10 ms the audio buffer lasts, rounded up, and
        none when the buffer is shorter than 10 ms. */
    method Alloc(bufferSamples: nat, sampleSize: nat, samplesPerSecond: nat)
      requires sampleSize > 0 && samplesPerSecond > 0
      modifies this
      ensures Valid() && midims == 10 * ms10s
      ensures ms10s == QueueUnit(sampleSize, samplesPerSecond)
      ensures qlen == QueueLength(bufferSamples * sampleSize, ms10s)
      ensures forall i :: 0 <= i < |entries| ==> entries[i] == []
    {
      var bufferSize := bufferSamples * sampleSize;
      var product := sampleSize * samplesPerSecond;
      entries := [];
      midims := product;
      if midims % 80 != 0 { midims := midims + (80 - midims % 80); }
      UnitRounding(sampleSize, samplesPerSecond, midims);
      ms10s := midims / 80;
      midims := midims / 8;
      if ms10s > bufferSize { qlen := 0; return; }
      var total := bufferSize;
      if bufferSize % ms10s != 0 { bufferSize := bufferSize + (ms10s - bufferSize % ms10s); }
      LengthRounding(total, ms10s, bufferSize);
      qlen := bufferSize / ms10s;
      entries := seq(qlen, _ => []);
    }

    /** The queue part of midi_send_buffer: the message goes into the entry of its
        10-millisecond slot after what is there; bytes that do not fit in the entry's
        391-byte buffer are dropped. `needTimer` is what sending to the ports reported. */
    method SendBuffer(data: seq<byte>, pos: nat, needTimer: bool)
      requires Valid()
      requires midims != 0 && needTimer ==> pos / ms10s < qlen
      modifies this`entries
      ensures Valid()
      ensures midims == 0 || !needTimer ==> entries == old(entries)
      ensures midims != 0 && needTimer ==>
        var slot := pos / ms10s;
        var room := QENT_BYTES - |old(entries)[slot]|;
        entries == old(entries)[slot := old(entries)[slot] + data[..Min(|data|, room)]]
    {
      if midims != 0 && needTimer {
        var slot := pos / ms10s;
        var len := |data|;
        if len + |entries[slot]| > QENT_BYTES {
          len := QENT_BYTES - |entries[slot]|;
        }
        entries := entries[slot := entries[slot] + data[..len]];
      }
    }
  }

  /** The bytes of audio per 10 ms for a sample size and rate: their product rounded up
      to a multiple of 80, over 80. */
  function QueueUnit(sampleSize: nat, samplesPerSecond: nat): (u: nat)
    requires sampleSize > 0 && samplesPerSecond > 0
    ensures u > 0
    ensures (u - 1) * 80 < sampleSize * samplesPerSecond <= u * 80
  {
    var p := sampleSize * samplesPerSecond;
    (p + 79) / 80
  }

  /** The number of queue entries for a buffer of `bufferSize` bytes: none when the buffer
      is shorter than one unit, otherwise the fewest units that cover it. */
  function QueueLength(bufferSize: nat, unit: nat): (q: nat)
    requires unit > 0
    ensures unit > bufferSize ==> q == 0
    ensures unit <= bufferSize ==> q >= 1 && (q - 1) * unit < bufferSize <= q * unit
  {
    if unit > bufferSize then 0
    else
      DivBounds(bufferSize + unit - 1, unit);
      (bufferSize + unit - 1) / unit
  }

  /** The C idiom `if (x % m) x += m - x % m`: x rounded up to a multiple of m. */
  lemma RoundUp(x: nat, m: nat)
    requires m > 0
    ensures var r := if x % m != 0 then x + (m - x % m) else x;
      r == ((x + m - 1) / m) * m && r / m == (x + m - 1) / m
  {
    var q, rem := x / m, x % m;
    assert x == q * m + rem;
    var k := if rem != 0 then q + 1 else q;
    var r := if rem != 0 then x + (m - rem) else x;
    assert r == k * m;
    DivModUnique(x + m - 1, m, k, if rem != 0 then rem - 1 else m - 1);
    DivModUnique(r, m, k, 0);
  }

  /** The rounding midi_queue_alloc does on the product of sample size and rate gives
      the queue unit over 80 and ten times that unit over 8. */
  lemma UnitRounding(sampleSize: nat, samplesPerSecond: nat, r: nat)
    requires sampleSize > 0 && samplesPerSecond > 0
    requires var p := sampleSize * samplesPerSecond;
      r == if p % 80 != 0 then p + (80 - p % 80) else p
    ensures r / 80 == QueueUnit(sampleSize, samplesPerSecond)
    ensures r / 8 == 10 * (r / 80)
  {
    var p := sampleSize * samplesPerSecond;
    RoundUp(p, 80);
    EightyOverEight((p + 79) / 80);
  }

  /** The rounding midi_queue_alloc does on the buffer size gives the queue length. */
  lemma LengthRounding(bufferSize: nat, unit: nat, r: nat)
    requires 0 < unit <= bufferSize
    requires r == if bufferSize % unit != 0 then bufferSize + (unit - bufferSize % unit) else bufferSize
    ensures r / unit == QueueLength(bufferSize, unit)
  {
    RoundUp(bufferSize, unit);
  }

  /** A multiple of 80 over 8 is ten times the same multiple over 80. */
  lemma EightyOverEight(k: nat)
    ensures (k * 80) / 8 == 10 * ((k * 80) / 80)
  {
    DivModUnique(k * 80, 8, 10 * k, 0);
    DivModUnique(k * 80, 80, k, 0);
  }

  lemma DivBounds(x: nat, m: nat)
    requires m > 0
    ensures (x / m) * m <= x < (x / m + 1) * m
  {
  }

  /** An entry of the queue never holds more than its buffer, whatever is sent to it. */
  lemma {:induction false} EntryStaysBounded(entry: seq<byte>, data: seq<byte>)
    requires |entry| <= QENT_BYTES
    ensures |entry + data[..Min(|data|, QENT_BYTES - |entry|)]| <= QENT_BYTES
    ensures |data| + |entry| <= QENT_BYTES ==> entry + data[..Min(|data|, QENT_BYTES - |entry|)] == entry + data
  {
    assert |data| + |entry| <= QENT_BYTES ==> data[..Min(|data|, QENT_BYTES - |entry|)] == data;
  }

  /** A registered port: its slot number and the provider that registered it. */
  datatype Port = Port(num: nat, provider: nat, name: string)

  /** The number of occupied slots of a port table. */
  function Occupied(slots: seq<Option<Port>>): (n: nat)
    ensures n <= |slots|
  {
    if |slots| == 0 then 0
    else Occupied(slots[..|slots| - 1]) + (if slots[|slots| - 1].Some? then 1 else 0)
  }

  /** Filling an empty slot adds one to the count, emptying a full one takes one away. */
  lemma {:induction false} OccupiedUpdate(slots: seq<Option<Port>>, i: nat, v: Option<Port>)
    requires i < |slots|
    ensures Occupied(slots[i := v]) + (if slots[i].Some? then 1 else 0)
         == Occupied(slots) + (if v.Some? then 1 else 0)
  {
    var last := |slots| - 1;
    if i < last {
      assert slots[i := v][..last] == slots[..last][i := v];
      OccupiedUpdate(slots[..last], i, v);
    } else {
      assert slots[i := v][..last] == slots[..last];
    }
  }

  /** A full table extended by four slots whose first holds `p` counts one more. */
  lemma {:induction false} OccupiedGrow(slots: seq<Option<Port>>, p: Port)
    ensures Occupied(slots + [Some(p), None, None, None]) == Occupied(slots) + 1
  {
    var s1 := slots + [Some(p)];
    var s2 := s1 + [None];
    var s3 := s2 + [None];
    var s4 := s3 + [None];
    assert s1[..|s1| - 1] == slots;
    assert Occupied(s1) == Occupied(slots) + 1;
    assert s2[..|s2| - 1] == s1;
    assert Occupied(s2) == Occupied(s1);
    assert s3[..|s3| - 1] == s2;
    assert Occupied(s3) == Occupied(s2);
    assert s4[..|s4| - 1] == s3;
    assert Occupied(s4) == Occupied(s3);
    assert s4 == slots + [Some(p), None, None, None];
  }

  /** A table with no empty slot is fully occupied. */
  lemma {:induction false} OccupiedFull(slots: seq<Option<Port>>)
    requires forall i :: 0 <= i < |slots| ==> slots[i].Some?
    ensures Occupied(slots) == |slots|
  {
    if |slots| > 0 {
      OccupiedFull(slots[..|slots| - 1]);
    }
  }

  /** The first occupied slot at or after `from` whose port belongs to `provider` (any
      provider when it is None). */
  function FirstFrom(slots: seq<Option<Port>>, from: nat, provider: Option<nat>): (r: Option<nat>)
    ensures r.Some? ==>
      (from <= r.value < |slots| && slots[r.value].Some?
       && (provider.Some? ==> slots[r.value].value.provider == provider.value))
    ensures forall i ::
      (from <= i < |slots| && slots[i].Some? && (provider.None? || slots[i].value.provider == provider.value))
      ==> r.Some? && r.value <= i
    decreases |slots| - from
  {
    if from >= |slots| then None
    else if slots[from].Some? && (provider.None? || slots[from].value.provider == provider.value) then Some(from)
    else FirstFrom(slots, from + 1, provider)
  }

  /** What one call of midi_port_foreach does as written. */
  datatype ForeachStep =
    | Visit(index: nat)      // returns 1 with the cursor at that slot's port
    | Exhausted              // returns 0 with the cursor reset to NULL
    | EmptySlotZero          // returns 1 with a NULL cursor: slot 0 taken although empty
    | NullDereference        // reads the provider of the NULL port in slot 0

  /** The step that reports a search result: a visit to the slot found, or the end. */
  function StepOf(found: Option<nat>): ForeachStep {
    if found.Some? then Visit(found.value) else Exhausted
  }

  /** port_top, port_alloc (the length of `slots`) and port_count. */
  class PortTable {
    var slots: seq<Option<Port>>
    var count: nat

    /** port_count counts the occupied slots, a port's number is its slot, and the table
        grows four slots at a time. */
    ghost predicate Valid()
      reads this
    {
      count == Occupied(slots)
      && |slots| % 4 == 0
      && forall i :: 0 <= i < |slots| && slots[i].Some? ==> slots[i].value.num == i
    }

    /** The empty table. */
    constructor ()
      ensures Valid() && slots == [] && count == 0
    {
      slots, count := [], 0;
    }

    /** midi_port_register: the port takes the lowest empty slot, or, when there is none,
        the table grows by four and the port takes the first new slot; the slot number is
        returned and recorded in the port. */
    method Register(provider: nat, name: string) returns (num: nat)
      requires Valid()
      modifies this
      ensures Valid() && count == old(count) + 1
      ensures (exists i :: 0 <= i < |old(slots)| && old(slots)[i].None?) ==>
        num < |old(slots)| && old(slots)[num].None?
        && (forall i :: 0 <= i < num ==> old(slots)[i].Some?)
        && slots == old(slots)[num := Some(Port(num, provider, name))]
      ensures (forall i :: 0 <= i < |old(slots)| ==> old(slots)[i].Some?) ==>
        num == |old(slots)| && slots == old(slots) + [Some(Port(num, provider, name)), None, None, None]
    {
      var i := 0;
      while i < |slots|
        invariant 0 <= i <= |slots|
        invariant forall k :: 0 <= k < i ==> slots[k].Some?
      {
        if slots[i].None? {
          OccupiedUpdate(slots, i, Some(Port(i, provider, name)));
          slots := slots[i := Some(Port(i, provider, name))];
          count := count + 1;
          return i;
        }
        i := i + 1;
      }
      OccupiedFull(slots);
      num := count;
      OccupiedGrow(slots, Port(num, provider, name));
      slots := slots + [Some(Port(num, provider, name)), None, None, None];
      count := count + 1;
    }

    /** midi_port_unregister: the port numbered `num` leaves its slot; nothing changes when
        no port has that number. */
    method Unregister(num: int)
      requires Valid()
      modifies this
      ensures Valid()
      ensures 0 <= num < |old(slots)| && old(slots)[num].Some? ==>
        slots == old(slots)[num := None] && count == old(count) - 1
      ensures !(0 <= num < |old(slots)| && old(slots)[num].Some?) ==>
        slots == old(slots) && count == old(count)
    {
      var i := 0;
      while i < |slots|
        invariant 0 <= i <= |slots|
        invariant forall k :: 0 <= k < i ==> slots[k].None? || slots[k].value.num != num
      {
        if slots[i].Some? && slots[i].value.num == num {
          OccupiedUpdate(slots, i, None);
          slots := slots[i := None];
          count := count - 1;
          return;
        }
        i := i + 1;
      }
    }

    /** The `while (!port_top[i])` scan of midi_port_foreach: the first occupied slot at
        or after `from`, or the end; skipping empty slots does not change the next match. */
    method SkipEmpty(from: nat, provider: Option<nat>) returns (i: nat)
      ensures from <= i && (i < |slots| ==> slots[i].Some?)
      ensures forall k :: from <= k < i && k < |slots| ==> slots[k].None?
      ensures FirstFrom(slots, i, provider) == FirstFrom(slots, from, provider)
    {
      i := from;
      while i < |slots| && slots[i].None?
        invariant from <= i
        invariant forall k :: from <= k < i && k < |slots| ==> slots[k].None?
        invariant FirstFrom(slots, i, provider) == FirstFrom(slots, from, provider)
        decreases |slots| - i
      {
        i := i + 1;
      }
    }

    /** midi_port_foreach with the first step corrected to skip empty slots like the
        later ones: from a NULL cursor (None) or the port in slot `c`, the next occupied
        slot of `provider`'s ports (any provider's when None), or None at the end. */
    method Foreach(provider: Option<nat>, cursor: Option<nat>) returns (next: Option<nat>)
      requires Valid()
      ensures next == FirstFrom(slots, if cursor.None? then 0 else cursor.value + 1, provider)
    {
      var i := if cursor.None? then 0 else cursor.value + 1;
      while true
        invariant FirstFrom(slots, i, provider)
               == FirstFrom(slots, if cursor.None? then 0 else cursor.value + 1, provider)
        decreases |slots| - i
      {
        i := SkipEmpty(i, provider);
        if i >= |slots| {
          return None;
        }
        if provider.None? || slots[i].value.provider == provider.value {
          return Some(i);
        }
        i := i + 1;
      }
    }

    /** midi_port_foreach as written: from a NULL cursor it takes slot 0 without checking
        that it is occupied. An empty slot 0 is then returned as a NULL port with the
        result 1, which a caller that uses the port at once dereferences, or, when a
        provider is given, its provider field is read through the NULL pointer. Every other
        step agrees with Foreach. */
    method ForeachAsWritten(provider: Option<nat>, cursor: Option<nat>) returns (r: ForeachStep)
      requires Valid()
      ensures cursor.None? && |slots| > 0 && slots[0].None? ==>
        r == (if provider.None? then EmptySlotZero else NullDereference)
      ensures !(cursor.None? && |slots| > 0 && slots[0].None?) ==>
        r == StepOf(FirstFrom(slots, if cursor.None? then 0 else cursor.value + 1, provider))
    {
      ghost var nullStart := cursor.None? && |slots| > 0 && slots[0].None?;
      ghost var target := FirstFrom(slots, if cursor.None? then 0 else cursor.value + 1, provider);
      var cur := cursor;
      while true
        invariant cur.None? ==> cursor.None?
        invariant cur.Some? && nullStart ==> cur == cursor
        invariant FirstFrom(slots, if cur.None? then 0 else cur.value + 1, provider) == target
        decreases |slots| + 1 - (if cur.None? then 0 else cur.value + 1)
      {
        var i: nat;
        if cur.None? {
          i := 0;
        } else {
          i := SkipEmpty(cur.value + 1, provider);
        }
        if i >= |slots| {
          return Exhausted;
        }
        if slots[i].None? {
          // only reachable from a NULL cursor: the cursor becomes the NULL in slot 0
          if provider.None? {
            return EmptySlotZero;
          }
          return NullDereference;
        }
        cur := Some(i);
        if provider.None? || slots[i].value.provider == provider.value {
          return Visit(i);
        }
      }
    }
  }
}
