/** The LSB-first bit reader of the MMCMP unpacker (get_bits in schism/slurp.c)
    and the adaptive-width code it drives: one decoding step reads a code of
    width+1 bits and yields a literal symbol, a width change, or an escape. */
module MmcmpBits {
  import opened Bytes

  /** The mutable part of `mm_bit_buffer_t`: valid bit count, bit buffer, next source byte.
      `src` and `end` are offsets into the packed file. */
  datatype BitState = BitState(bits: nat, buffer: nat, src: nat)

  /** The buffer holds exactly `bits` valid low bits and never more than 31,
      so `buffer |= byte << bits` is an addition and fits in 32 bits. */
  ghost predicate WellFormed(s: BitState) {
    s.bits <= 31 && s.buffer < Pow2(s.bits)
  }

  /** The refill loop of get_bits: bytes are appended above the valid bits
      until at least 24 are held; past `end` the appended bytes are zero.
      None: a byte below `end` lies outside the file (an out-of-bounds read). */
  function Refill(mem: seq<byte>, end: nat, s: BitState): (r: Option<BitState>)
    decreases 24 - s.bits
  {
    if s.bits >= 24 then Some(s)
    else if s.src < end && s.src >= |mem| then None
    else Refill(mem, end, Feed(mem, end, s))
  }

  /** get_bits(bb, n): the low `n` bits of the (refilled) buffer, which is then shifted down. */
  function TakeBits(mem: seq<byte>, end: nat, s: BitState, n: nat): Option<(nat, BitState)>
    requires WellFormed(s) && n <= 24
  {
    if n == 0 then Some((0, s))
    else
      match Refill(mem, end, s)
      case None => None
      case Some(t) =>
        RefillFacts(mem, end, s);
        Some(Extract(t, n))
  }

  /** `d = buffer & ((1 << n) - 1); buffer >>= n; bits -= n`. */
  function Extract(t: BitState, n: nat): (nat, BitState)
    requires n <= t.bits
  {
    DivNonneg(t.buffer, Pow2(n));
    (t.buffer % Pow2(n), BitState(t.bits - n, t.buffer / Pow2(n), t.src))
  }

  // ---------------------------------------------------------------------------
  // Facts about the reader

  /** Appending a byte above `bits` valid bits keeps the buffer within `bits + 8` bits. */
  lemma AppendByte(buffer: nat, bits: nat, b: byte)
    requires buffer < Pow2(bits)
    ensures buffer + b * Pow2(bits) < Pow2(bits + 8)
  {
    var p := Pow2(bits);
    Pow2Add(bits, 8);
    Pow2Values();
    ByteTimes(b, p);
  }

  lemma ByteTimes(b: byte, p: nat)
    ensures b * p <= 255 * p
  {
    assert 255 * p - b * p == (255 - b) * p;
  }

  /** The buffer after one refill iteration. */
  function Feed(mem: seq<byte>, end: nat, s: BitState): BitState
    requires s.src < end ==> s.src < |mem|
  {
    if s.src < end then BitState(s.bits + 8, s.buffer + mem[s.src] * Pow2(s.bits), s.src + 1)
    else BitState(s.bits + 8, s.buffer, s.src)
  }

  lemma FeedFacts(mem: seq<byte>, end: nat, s: BitState)
    requires WellFormed(s) && s.bits < 24 && (s.src < end ==> s.src < |mem|)
    ensures WellFormed(Feed(mem, end, s))
  {
    if s.src < end {
      AppendByte(s.buffer, s.bits, mem[s.src]);
    } else {
      Pow2Monotone(s.bits, s.bits + 8);
    }
  }

  lemma {:induction false} RefillFacts(mem: seq<byte>, end: nat, s: BitState)
    requires WellFormed(s)
    ensures Refill(mem, end, s).Some? ==> WellFormed(Refill(mem, end, s).value)
    ensures Refill(mem, end, s).Some? ==> Refill(mem, end, s).value.bits >= 24
    ensures Refill(mem, end, s).Some? ==> Refill(mem, end, s).value.src >= s.src
    decreases 24 - s.bits
  {
    if s.bits < 24 && (s.src < end ==> s.src < |mem|) {
      FeedFacts(mem, end, s);
      RefillFacts(mem, end, Feed(mem, end, s));
    }
  }

  lemma ShiftBound(buffer: nat, bits: nat, n: nat)
    requires n <= bits && buffer < Pow2(bits)
    ensures buffer / Pow2(n) < Pow2(bits - n)
  {
    Pow2Add(n, bits - n);
    DivBelow(buffer, Pow2(n), Pow2(bits - n));
  }

  /** get_bits keeps the buffer well formed, returns fewer than 2^n as its value,
      and with n = 0 returns 0 and consumes nothing. */
  lemma TakeBitsFacts(mem: seq<byte>, end: nat, s: BitState, n: nat)
    requires WellFormed(s) && n <= 24
    ensures TakeBits(mem, end, s, n).Some? ==>
      var (d, t) := TakeBits(mem, end, s, n).value;
      WellFormed(t) && d < Pow2(n) && t.src >= s.src
    ensures n == 0 ==> TakeBits(mem, end, s, n) == Some((0, s))
  {
    if n > 0 {
      RefillFacts(mem, end, s);
      if Refill(mem, end, s).Some? {
        var t := Refill(mem, end, s).value;
        ShiftBound(t.buffer, t.bits, n);
      }
    }
  }

  /** The remaining input bytes [src, end) read as one little-endian number. */
  function Tail(mem: seq<byte>, src: nat, end: nat): nat
    requires end <= |mem|
    decreases end - src
  {
    if src >= end then 0 else mem[src] + 256 * Tail(mem, src + 1, end)
  }

  /** All bits the reader will still deliver, lowest first: the buffer, then the unread bytes,
      then (implicitly) zeros. */
  function StreamValue(mem: seq<byte>, end: nat, s: BitState): nat
    requires end <= |mem|
  {
    s.buffer + Pow2(s.bits) * Tail(mem, s.src, end)
  }

  lemma FeedPreservesStream(mem: seq<byte>, end: nat, s: BitState)
    requires end <= |mem|
    ensures StreamValue(mem, end, Feed(mem, end, s)) == StreamValue(mem, end, s)
  {
    if s.src < end {
      var t := Tail(mem, s.src + 1, end);
      Pow2Add(s.bits, 8);
      Pow2Values();
      assert Tail(mem, s.src, end) == mem[s.src] + 256 * t;
      FeedArith(s.buffer, Pow2(s.bits), mem[s.src], t, Pow2(s.bits + 8));
    }
  }

  lemma FeedArith(buffer: nat, p: nat, b: nat, t: nat, p8: nat)
    requires p8 == p * 256
    ensures buffer + b * p + p8 * t == buffer + p * (b + 256 * t)
  {
  }

  lemma {:induction false} RefillPreservesStream(mem: seq<byte>, end: nat, s: BitState)
    requires end <= |mem|
    ensures Refill(mem, end, s).Some?
    ensures StreamValue(mem, end, Refill(mem, end, s).value) == StreamValue(mem, end, s)
    decreases 24 - s.bits
  {
    if s.bits < 24 {
      FeedPreservesStream(mem, end, s);
      RefillPreservesStream(mem, end, Feed(mem, end, s));
    }
  }

  /** The reader is faithful to its stream: when the packed region lies inside the file,
      get_bits(n) never fails, returns the low n bits of the stream and leaves the rest. */
  lemma TakeBitsFromStream(mem: seq<byte>, end: nat, s: BitState, n: nat)
    requires end <= |mem| && WellFormed(s) && n <= 24
    ensures TakeBits(mem, end, s, n).Some?
    ensures TakeBits(mem, end, s, n).value.0 == StreamValue(mem, end, s) % Pow2(n)
    ensures StreamValue(mem, end, TakeBits(mem, end, s, n).value.1) == StreamValue(mem, end, s) / Pow2(n)
  {
    RefillPreservesStream(mem, end, s);
    RefillFacts(mem, end, s);
    if n > 0 {
      var t := Refill(mem, end, s).value;
      Pow2Add(n, t.bits - n);
      SplitLow(StreamValue(mem, end, s), t.buffer, Pow2(t.bits), Pow2(n), Pow2(t.bits - n), Tail(mem, t.src, end));
    }
  }

  /** Once an extraction took a nonzero value, the reader is strictly further along:
      it read a new byte, or its buffer shrank. This bounds the number of width changes. */
  ghost predicate Advanced(s: BitState, t: BitState, end: nat) {
    (s.src < end && t.src > s.src) || (t.src == s.src && t.buffer < s.buffer)
  }

  ghost predicate NotBehind(s: BitState, t: BitState, end: nat) {
    (s.src < end && t.src > s.src) || (t.src == s.src && t.buffer <= s.buffer)
  }

  lemma {:induction false} RefillMoves(mem: seq<byte>, end: nat, s: BitState)
    requires WellFormed(s) && Refill(mem, end, s).Some?
    ensures var t := Refill(mem, end, s).value;
      (s.src < end && t.src > s.src) || (t.src == s.src && t.buffer == s.buffer)
    decreases 24 - s.bits
  {
    if s.bits < 24 {
      FeedFacts(mem, end, s);
      if s.src < end {
        RefillFacts(mem, end, Feed(mem, end, s));
      } else {
        RefillMoves(mem, end, Feed(mem, end, s));
      }
    }
  }

  lemma TakeBitsMoves(mem: seq<byte>, end: nat, s: BitState, n: nat)
    requires WellFormed(s) && n <= 24 && TakeBits(mem, end, s, n).Some?
    ensures NotBehind(s, TakeBits(mem, end, s, n).value.1, end)
    ensures TakeBits(mem, end, s, n).value.0 >= 1 ==> Advanced(s, TakeBits(mem, end, s, n).value.1, end)
  {
    if n > 0 {
      RefillMoves(mem, end, s);
      RefillFacts(mem, end, s);
      var t := Refill(mem, end, s).value;
      assert TakeBits(mem, end, s, n).value == Extract(t, n);
      DivAtMost(t.buffer, Pow2(n));
      if t.buffer % Pow2(n) >= 1 {
        Pow2Monotone(1, n);
        ModShrinks(t.buffer, Pow2(n));
      }
    }
  }

  // ---------------------------------------------------------------------------
  // The adaptive-width code

  /** 8-bit (bytes) or 16-bit (words) packing. */
  datatype Mode = Bits8 | Bits16

  /** Number of distinct code widths: 8 or 16. */
  function Widths(m: Mode): nat {
    if m.Bits8? then 8 else 16
  }

  /** mm_8bit_commands / mm_16bit_commands: the lowest code that is a command at width w. */
  function Command(m: Mode, w: nat): (r: nat)
    requires w < Widths(m)
    ensures 1 <= r < Pow2(w + 1)
  {
    Pow2Values();
    if m.Bits8? then
      if w == 0 then 0x01 else if w == 1 then 0x03 else if w == 2 then 0x07 else if w == 3 then 0x0F
      else if w == 4 then 0x1E else if w == 5 then 0x3C else if w == 6 then 0x78 else 0xF8
    else
      if w == 0 then 0x0001 else if w == 1 then 0x0003 else if w == 2 then 0x0007 else if w == 3 then 0x000F
      else if w == 4 then 0x001E else if w == 5 then 0x003C else if w == 6 then 0x0078 else if w == 7 then 0x00F0
      else if w == 8 then 0x01F0 else if w == 9 then 0x03F0 else if w == 10 then 0x07F0 else if w == 11 then 0x0FF0
      else if w == 12 then 0x1FF0 else if w == 13 then 0x3FF0 else if w == 14 then 0x7FF0 else 0xFFF0
  }

  /** mm_8bit_fetch / mm_16bit_fetch: how many more bits a command reads. */
  function Fetch(m: Mode, w: nat): (r: nat)
    requires w < Widths(m)
    ensures r <= 4
  {
    if m.Bits8? then
      if w <= 3 then 3 else if w == 4 then 2 else if w == 5 then 1 else 0
    else
      if w <= 3 then 4 else if w == 4 then 3 else if w == 5 then 2 else if w == 6 then 1 else 0
  }

  /** Width of the escape field: 3 bits for bytes, 4 for words. */
  function EscapeBits(m: Mode): nat {
    if m.Bits8? then 3 else 4
  }

  /** The all-ones escape field: 7 or 0x0F. */
  function EscapeMax(m: Mode): nat {
    if m.Bits8? then 7 else 0x0F
  }

  /** The symbol an escape field of 0 stands for: 0xF8 or 0xFFF0. */
  function EscapeBase(m: Mode): nat {
    if m.Bits8? then 0xF8 else 0xFFF0
  }

  /** One past the largest symbol: 0x100 or 0x10000 (the initial `newval`, meaning "nothing"). */
  function Top(m: Mode): nat {
    if m.Bits8? then 0x100 else 0x10000
  }

  /** The outcome of one iteration of the decoding loop. */
  datatype Step =
    | Literal(sym: nat)     // a symbol to output (table index or folded word)
    | NewWidth(width: nat)  // the code width changes
    | EndOfBlock            // all-ones escape followed by a 1 bit: `break`
    | ReadFault             // the reader touched a byte outside the file

  /** One iteration of the decoding loop at width w (the bodies of the two
      `while (subblk < pblk.sub_blk)` loops up to the output write): a code of
      w + 1 bits below the command threshold is a literal, otherwise a command. */
  function DecodeStep(mem: seq<byte>, end: nat, m: Mode, s: BitState, w: nat): (Step, BitState)
    requires WellFormed(s) && w < Widths(m)
  {
    TakeBitsFacts(mem, end, s, w + 1);
    match TakeBits(mem, end, s, w + 1)
    case None => (ReadFault, s)
    case Some((d, s1)) =>
      if d < Command(m, w) then (Literal(d), s1) else DecodeCommand(mem, end, m, s1, w, d)
  }

  /** A command reads `fetch` more bits; the new width it names, if different, is
      taken, and naming the current width is the escape. */
  function DecodeCommand(mem: seq<byte>, end: nat, m: Mode, s1: BitState, w: nat, d: nat): (Step, BitState)
    requires WellFormed(s1) && w < Widths(m) && d >= Command(m, w)
  {
    var f := Fetch(m, w);
    TakeBitsFacts(mem, end, s1, f);
    match TakeBits(mem, end, s1, f)
    case None => (ReadFault, s1)
    case Some((x, s2)) =>
      var newbits := x + (d - Command(m, w)) * Pow2(f);
      if newbits != w then (NewWidth(newbits % Widths(m)), s2) else DecodeEscape(mem, end, m, s2)
  }

  /** The escape: an `EscapeBits` field e gives the symbol EscapeBase + e, except that
      all-ones is followed by one more bit, 1 ending the block and 0 giving Top - 1. */
  function DecodeEscape(mem: seq<byte>, end: nat, m: Mode, s2: BitState): (Step, BitState)
    requires WellFormed(s2)
  {
    var eb := EscapeBits(m);
    TakeBitsFacts(mem, end, s2, eb);
    match TakeBits(mem, end, s2, eb)
    case None => (ReadFault, s2)
    case Some((e, s3)) =>
      if e == EscapeMax(m) then
        TakeBitsFacts(mem, end, s3, 1);
        match TakeBits(mem, end, s3, 1)
        case None => (ReadFault, s3)
        case Some((stop, s4)) =>
          if stop != 0 then (EndOfBlock, s4) else (Literal(Top(m) - 1), s4)
      else (Literal(EscapeBase(m) + e), s3)
  }

  lemma NotBehindThen(s: BitState, t: BitState, u: BitState, end: nat)
    requires NotBehind(s, t, end) && NotBehind(t, u, end)
    ensures NotBehind(s, u, end)
    ensures Advanced(s, t, end) || Advanced(t, u, end) ==> Advanced(s, u, end)
  {
  }

  lemma DecodeEscapeFacts(mem: seq<byte>, end: nat, m: Mode, s2: BitState)
    requires WellFormed(s2)
    ensures var (st, t) := DecodeEscape(mem, end, m, s2);
      WellFormed(t) && (st.Literal? ==> st.sym < Top(m)) && !st.NewWidth?
  {
    var eb := EscapeBits(m);
    TakeBitsFacts(mem, end, s2, eb);
    if TakeBits(mem, end, s2, eb).Some? {
      var s3 := TakeBits(mem, end, s2, eb).value.1;
      TakeBitsFacts(mem, end, s3, 1);
      EscapeFieldFits(m);
    }
  }

  lemma DecodeCommandFacts(mem: seq<byte>, end: nat, m: Mode, s1: BitState, w: nat, d: nat)
    requires WellFormed(s1) && w < Widths(m) && Command(m, w) <= d < Pow2(w + 1)
    ensures var (st, t) := DecodeCommand(mem, end, m, s1, w, d);
      WellFormed(t)
      && (st.Literal? ==> st.sym < Top(m))
      && (st.NewWidth? ==> st.width < Widths(m) && st.width != w && NotBehind(s1, t, end))
  {
    var f := Fetch(m, w);
    TakeBitsFacts(mem, end, s1, f);
    if TakeBits(mem, end, s1, f).Some? {
      var (x, s2) := TakeBits(mem, end, s1, f).value;
      TakeBitsMoves(mem, end, s1, f);
      if x + (d - Command(m, w)) * Pow2(f) != w {
        NewWidthInRange(m, w, d, x);
      } else {
        DecodeEscapeFacts(mem, end, m, s2);
      }
    }
  }

  /** A decoding step keeps the reader well formed, yields symbols below Top, and a
      width change moves to a different width in range while advancing the reader
      (so the decoding loop cannot change width forever). */
  lemma DecodeStepFacts(mem: seq<byte>, end: nat, m: Mode, s: BitState, w: nat)
    requires WellFormed(s) && w < Widths(m)
    ensures var (st, t) := DecodeStep(mem, end, m, s, w);
      WellFormed(t)
      && (st.Literal? ==> st.sym < Top(m))
      && (st.NewWidth? ==> st.width < Widths(m) && st.width != w && Advanced(s, t, end))
  {
    TakeBitsFacts(mem, end, s, w + 1);
    if TakeBits(mem, end, s, w + 1).Some? {
      var (d, s1) := TakeBits(mem, end, s, w + 1).value;
      TakeBitsMoves(mem, end, s, w + 1);
      if d >= Command(m, w) {
        DecodeCommandFacts(mem, end, m, s1, w, d);
        var t := DecodeCommand(mem, end, m, s1, w, d).1;
        if DecodeCommand(mem, end, m, s1, w, d).0.NewWidth? {
          NotBehindThen(s, s1, t, end);
        }
      } else {
        CommandBelowTop(m, w);
      }
    }
  }

  lemma CommandBelowTop(m: Mode, w: nat)
    requires w < Widths(m)
    ensures Command(m, w) <= Top(m)
  {
    assert Pow2(w + 1) <= Top(m) by {
      Pow2Monotone(w + 1, Widths(m));
      assert Pow2(Widths(m)) == Top(m) by {
        Pow2Values();
        if m.Bits16? { Pow2Add(8, 8); }
      }
    }
  }

  /** `newbits` after a command is always below 8 (bytes) or 16 (words), so the masks
      `& 0x07` / `& 0x0F` never change it. */
  lemma NewWidthInRange(m: Mode, w: nat, d: nat, x: nat)
    requires w < Widths(m) && Command(m, w) <= d < Pow2(w + 1) && x < Pow2(Fetch(m, w))
    ensures x + (d - Command(m, w)) * Pow2(Fetch(m, w)) < Widths(m)
    ensures (x + (d - Command(m, w)) * Pow2(Fetch(m, w))) % Widths(m)
         == x + (d - Command(m, w)) * Pow2(Fetch(m, w))
  {
    var p := Pow2(Fetch(m, w));
    CommandSpan(m, w);
    SpanBound(x, d - Command(m, w), Pow2(w + 1) - Command(m, w), p, Widths(m));
    var nb := x + (d - Command(m, w)) * p;
    DivModUnique(nb, Widths(m), 0, nb);
  }

  /** A digit below the base `p` under a leading part below `span`: below span * p. */
  lemma SpanBound(x: nat, k: nat, span: nat, p: nat, total: nat)
    requires x < p && k < span && span * p == total
    ensures x + k * p < total
  {
    assert k * p <= (span - 1) * p;
    assert (span - 1) * p == span * p - p;
  }

  /** The commands of width w, Command .. 2^(w+1) - 1, each followed by `fetch` bits,
      name exactly the `Widths` widths. */
  lemma CommandSpan(m: Mode, w: nat)
    requires w < Widths(m)
    ensures (Pow2(w + 1) - Command(m, w)) * Pow2(Fetch(m, w)) == Widths(m)
  {
    Pow2Values();
    if m.Bits8? {
      if w == 0 {} else if w == 1 {} else if w == 2 {} else if w == 3 {}
      else if w == 4 {} else if w == 5 {} else if w == 6 {} else {}
    } else {
      if w == 0 {} else if w == 1 {} else if w == 2 {} else if w == 3 {}
      else if w == 4 {} else if w == 5 {} else if w == 6 {} else {}
    }
  }

  // ---------------------------------------------------------------------------
  // An encoder for the same code, and the round trip

  /** A bit field of a given width, written lowest bit first. */
  datatype Field = Field(value: nat, width: nat)

  /** The number made of the fields, the first one in the lowest bits. */
  function Pack(fs: seq<Field>): nat {
    if fs == [] then 0 else fs[0].value + Pow2(fs[0].width) * Pack(fs[1..])
  }

  function PackedWidth(fs: seq<Field>): nat {
    if fs == [] then 0 else fs[0].width + PackedWidth(fs[1..])
  }

  /** A stream that begins with the fields and continues with `rest`. */
  function Stream(fs: seq<Field>, rest: nat): nat {
    Pack(fs) + Pow2(PackedWidth(fs)) * rest
  }

  /** Every field value fits its width, and no field is wider than get_bits can take. */
  ghost predicate Fits(fs: seq<Field>) {
    forall i :: 0 <= i < |fs| ==> fs[i].width <= 24 && fs[i].value < Pow2(fs[i].width)
  }

  lemma StreamEmpty(rest: nat)
    ensures Stream([], rest) == rest
  {
    assert Pow2(PackedWidth([])) == 1;
  }

  lemma PeelField(fs: seq<Field>, rest: nat)
    requires fs != []
    ensures Stream(fs, rest) == fs[0].value + Pow2(fs[0].width) * Stream(fs[1..], rest)
  {
    Pow2Add(fs[0].width, PackedWidth(fs[1..]));
    Regroup(fs[0].value, Pow2(fs[0].width), Pack(fs[1..]), Pow2(PackedWidth(fs[1..])), rest);
  }

  /** Reading the first field's width off a stream that begins with it returns the
      field's value and the stream of the remaining fields. */
  lemma TakeField(mem: seq<byte>, end: nat, s: BitState, fs: seq<Field>, rest: nat) returns (t: BitState)
    requires end <= |mem| && WellFormed(s) && fs != [] && Fits(fs)
    requires StreamValue(mem, end, s) == Stream(fs, rest)
    ensures TakeBits(mem, end, s, fs[0].width) == Some((fs[0].value, t))
    ensures WellFormed(t) && StreamValue(mem, end, t) == Stream(fs[1..], rest) && Fits(fs[1..])
  {
    var f := fs[0];
    TakeBitsFromStream(mem, end, s, f.width);
    TakeBitsFacts(mem, end, s, f.width);
    PeelField(fs, rest);
    DivModUnique(StreamValue(mem, end, s), Pow2(f.width), Stream(fs[1..], rest), f.value);
    t := TakeBits(mem, end, s, f.width).value.1;
  }

  /** The code that switches from width w to width w2 (or, with w2 == w, the escape):
      the command `Command + (w2 >> fetch)` and then the low `fetch` bits of w2. */
  function EncodeWidth(m: Mode, w: nat, w2: nat): seq<Field>
    requires w < Widths(m) && w2 < Widths(m)
  {
    var f := Fetch(m, w);
    [Field(Command(m, w) + w2 / Pow2(f), w + 1), Field(w2 % Pow2(f), f)]
  }

  /** Which symbols width w can emit: literals below its command, and the escaped
      symbols from EscapeBase up. */
  ghost predicate Encodable(m: Mode, w: nat, sym: nat)
    requires w < Widths(m)
  {
    sym < Command(m, w) || EscapeBase(m) <= sym < Top(m)
  }

  /** The code for a symbol at width w: the symbol itself when it is below the command,
      otherwise the escape, the escape field, and for the all-ones field a 0 bit. */
  function EncodeSymbol(m: Mode, w: nat, sym: nat): seq<Field>
    requires w < Widths(m) && Encodable(m, w, sym)
  {
    if sym < Command(m, w) then [Field(sym, w + 1)]
    else
      var e := sym - EscapeBase(m);
      var esc := EncodeWidth(m, w, w) + [Field(e, EscapeBits(m))];
      if e == EscapeMax(m) then esc + [Field(0, 1)] else esc
  }

  /** The end-of-block code: the escape, the all-ones field, then a 1 bit. */
  function EncodeEnd(m: Mode, w: nat): seq<Field>
    requires w < Widths(m)
  {
    EncodeWidth(m, w, w) + [Field(EscapeMax(m), EscapeBits(m)), Field(1, 1)]
  }

  /** The largest command at width w, `Command + ((widths - 1) >> fetch)`, fits in w + 1 bits. */
  lemma CommandRoom(m: Mode, w: nat)
    requires w < Widths(m)
    ensures Command(m, w) + (Widths(m) - 1) / Pow2(Fetch(m, w)) < Pow2(w + 1)
  {
    CommandSpan(m, w);
    DivBelow(Widths(m) - 1, Pow2(Fetch(m, w)), Pow2(w + 1) - Command(m, w));
  }

  /** The command naming w2 still fits in the w + 1 bits of a code at width w. */
  lemma CommandFits(m: Mode, w: nat, w2: nat)
    requires w < Widths(m) && w2 < Widths(m)
    ensures Command(m, w) + w2 / Pow2(Fetch(m, w)) < Pow2(w + 1)
  {
    CommandRoom(m, w);
    DivMonotone(w2, Widths(m) - 1, Pow2(Fetch(m, w)));
  }

  lemma EncodeWidthFits(m: Mode, w: nat, w2: nat)
    requires w < Widths(m) && w2 < Widths(m)
    ensures Fits(EncodeWidth(m, w, w2))
    ensures PackedWidth(EncodeWidth(m, w, w2)) == w + 1 + Fetch(m, w)
  {
    var f := Fetch(m, w);
    CommandFits(m, w, w2);
    DivNonneg(w2, Pow2(f));
    FieldPair(Field(Command(m, w) + w2 / Pow2(f), w + 1), Field(w2 % Pow2(f), f));
  }

  /** A two-field code fits when each field does; its width is the sum of theirs. */
  lemma FieldPair(a: Field, b: Field)
    requires a.width <= 24 && a.value < Pow2(a.width) && b.width <= 24 && b.value < Pow2(b.width)
    ensures Fits([a, b]) && PackedWidth([a, b]) == a.width + b.width
  {
    assert [a, b][1..] == [b];
    assert [b][1..] == [];
    assert PackedWidth([b]) == b.width + PackedWidth([]);
  }

  lemma EscapeFieldFits(m: Mode)
    ensures Pow2(EscapeBits(m)) == EscapeMax(m) + 1 && EscapeBase(m) + EscapeMax(m) == Top(m) - 1
    ensures Pow2(1) == 2
  {
    Pow2Values();
  }

  /** Decoding a command code: after the command and its `fetch` bits the reader holds
      the rest of the stream, and the width named is w2. */
  lemma CommandDecodes(mem: seq<byte>, end: nat, m: Mode, s: BitState, w: nat, w2: nat, more: seq<Field>, rest: nat)
    returns (s2: BitState)
    requires end <= |mem| && WellFormed(s) && w < Widths(m) && w2 < Widths(m) && Fits(more)
    requires StreamValue(mem, end, s) == Stream(EncodeWidth(m, w, w2) + more, rest)
    ensures WellFormed(s2) && StreamValue(mem, end, s2) == Stream(more, rest)
    ensures w2 != w ==> DecodeStep(mem, end, m, s, w) == (NewWidth(w2), s2)
    ensures w2 == w ==> DecodeStep(mem, end, m, s, w) == DecodeEscape(mem, end, m, s2)
  {
    var f := Fetch(m, w);
    EncodeWidthFits(m, w, w2);
    var fs := EncodeWidth(m, w, w2) + more;
    assert Fits(fs);
    var s1 := TakeField(mem, end, s, fs, rest);
    var d := Command(m, w) + w2 / Pow2(f);
    assert fs[1..][1..] == more;
    s2 := TakeField(mem, end, s1, fs[1..], rest);
    DivNonneg(w2, Pow2(f));
    assert d - Command(m, w) == w2 / Pow2(f);
    DivModUnique(w2, Widths(m), 0, w2);
    StepThroughCommand(mem, end, m, s, w, d, s1, w2 % Pow2(f), s2);
  }

  /** DecodeStep once its command and `fetch` bits are known. */
  lemma StepThroughCommand(mem: seq<byte>, end: nat, m: Mode, s: BitState, w: nat,
                           d: nat, s1: BitState, x: nat, s2: BitState)
    requires WellFormed(s) && w < Widths(m) && WellFormed(s1) && WellFormed(s2) && d >= Command(m, w)
    requires TakeBits(mem, end, s, w + 1) == Some((d, s1))
    requires TakeBits(mem, end, s1, Fetch(m, w)) == Some((x, s2))
    ensures var nb := x + (d - Command(m, w)) * Pow2(Fetch(m, w));
      DecodeStep(mem, end, m, s, w)
      == (if nb != w then (NewWidth(nb % Widths(m)), s2) else DecodeEscape(mem, end, m, s2))
  {
  }

  /** Round trip, width change: decoding the encoded switch to a different width w2
      yields exactly NewWidth(w2) and leaves the rest of the stream. */
  lemma DecodeEncodedWidth(mem: seq<byte>, end: nat, m: Mode, s: BitState, w: nat, w2: nat, rest: nat)
    requires end <= |mem| && WellFormed(s) && w < Widths(m) && w2 < Widths(m) && w2 != w
    requires StreamValue(mem, end, s) == Stream(EncodeWidth(m, w, w2), rest)
    ensures DecodeStep(mem, end, m, s, w).0 == NewWidth(w2)
    ensures StreamValue(mem, end, DecodeStep(mem, end, m, s, w).1) == rest
  {
    assert EncodeWidth(m, w, w2) + [] == EncodeWidth(m, w, w2);
    var s2 := CommandDecodes(mem, end, m, s, w, w2, [], rest);
    StreamEmpty(rest);
  }

  /** Decoding an escape field e (and for all-ones the following bit) off the stream. */
  lemma EscapeDecodes(mem: seq<byte>, end: nat, m: Mode, s2: BitState, e: nat, rest: nat)
    requires end <= |mem| && WellFormed(s2) && e <= EscapeMax(m)
    requires StreamValue(mem, end, s2) ==
      Stream(if e == EscapeMax(m) then [Field(e, EscapeBits(m)), Field(0, 1)] else [Field(e, EscapeBits(m))], rest)
    ensures DecodeEscape(mem, end, m, s2).0 == Literal(EscapeBase(m) + e)
    ensures StreamValue(mem, end, DecodeEscape(mem, end, m, s2).1) == rest
  {
    EscapeFieldFits(m);
    var fs := if e == EscapeMax(m) then [Field(e, EscapeBits(m)), Field(0, 1)] else [Field(e, EscapeBits(m))];
    assert Fits(fs);
    var s3 := TakeField(mem, end, s2, fs, rest);
    if e == EscapeMax(m) {
      var s4 := TakeField(mem, end, s3, fs[1..], rest);
      assert fs[1..][1..] == [];
    } else {
      assert fs[1..] == [];
    }
    StreamEmpty(rest);
  }

  /** Round trip, symbols: decoding the code of an encodable symbol at width w yields
      that symbol and leaves the rest of the stream. */
  lemma DecodeEncodedSymbol(mem: seq<byte>, end: nat, m: Mode, s: BitState, w: nat, sym: nat, rest: nat)
    requires end <= |mem| && WellFormed(s) && w < Widths(m) && Encodable(m, w, sym)
    requires StreamValue(mem, end, s) == Stream(EncodeSymbol(m, w, sym), rest)
    ensures DecodeStep(mem, end, m, s, w).0 == Literal(sym)
    ensures StreamValue(mem, end, DecodeStep(mem, end, m, s, w).1) == rest
  {
    if sym < Command(m, w) {
      DecodeEncodedLiteral(mem, end, m, s, w, sym, rest);
    } else {
      DecodeEncodedEscape(mem, end, m, s, w, sym, rest);
    }
  }

  lemma DecodeEncodedLiteral(mem: seq<byte>, end: nat, m: Mode, s: BitState, w: nat, sym: nat, rest: nat)
    requires end <= |mem| && WellFormed(s) && w < Widths(m) && sym < Command(m, w)
    requires StreamValue(mem, end, s) == Stream([Field(sym, w + 1)], rest)
    ensures DecodeStep(mem, end, m, s, w).0 == Literal(sym)
    ensures StreamValue(mem, end, DecodeStep(mem, end, m, s, w).1) == rest
  {
    var t := TakeField(mem, end, s, [Field(sym, w + 1)], rest);
    assert [Field(sym, w + 1)][1..] == [];
    StreamEmpty(rest);
  }

  lemma DecodeEncodedEscape(mem: seq<byte>, end: nat, m: Mode, s: BitState, w: nat, sym: nat, rest: nat)
    requires end <= |mem| && WellFormed(s) && w < Widths(m) && Command(m, w) <= sym
    requires EscapeBase(m) <= sym < Top(m)
    requires StreamValue(mem, end, s) == Stream(EncodeSymbol(m, w, sym), rest)
    ensures DecodeStep(mem, end, m, s, w).0 == Literal(sym)
    ensures StreamValue(mem, end, DecodeStep(mem, end, m, s, w).1) == rest
  {
    var e := sym - EscapeBase(m);
    EscapeFieldFits(m);
    var tailFs := if e == EscapeMax(m) then [Field(e, EscapeBits(m)), Field(0, 1)] else [Field(e, EscapeBits(m))];
    assert EncodeSymbol(m, w, sym) == EncodeWidth(m, w, w) + tailFs;
    assert Fits(tailFs);
    var s2 := CommandDecodes(mem, end, m, s, w, w, tailFs, rest);
    EscapeDecodes(mem, end, m, s2, e, rest);
  }

  /** Round trip, end of block: the end code decodes to EndOfBlock. */
  lemma DecodeEncodedEnd(mem: seq<byte>, end: nat, m: Mode, s: BitState, w: nat, rest: nat)
    requires end <= |mem| && WellFormed(s) && w < Widths(m)
    requires StreamValue(mem, end, s) == Stream(EncodeEnd(m, w), rest)
    ensures DecodeStep(mem, end, m, s, w).0 == EndOfBlock
    ensures StreamValue(mem, end, DecodeStep(mem, end, m, s, w).1) == rest
  {
    EscapeFieldFits(m);
    var tailFs := [Field(EscapeMax(m), EscapeBits(m)), Field(1, 1)];
    assert EncodeEnd(m, w) == EncodeWidth(m, w, w) + tailFs;
    FieldPair(tailFs[0], tailFs[1]);
    var s2 := CommandDecodes(mem, end, m, s, w, w, tailFs, rest);
    var s3 := TakeField(mem, end, s2, tailFs, rest);
    var s4 := TakeField(mem, end, s3, tailFs[1..], rest);
    assert tailFs[1..][1..] == [];
    StreamEmpty(rest);
  }

  // ---------------------------------------------------------------------------
  // The reader as the C code runs it

  /** `mm_bit_buffer_t`: the packed bytes are mem[src..end); `end` may lie beyond the file. */
  class BitReader {
    const mem: seq<byte>
    const end: nat
    var bits: nat
    var buffer: nat
    var src: nat

    function State(): BitState
      reads this
    {
      BitState(bits, buffer, src)
    }

    ghost predicate Valid()
      reads this
    {
      WellFormed(State())
    }

    /** `{ .bits = 0, .buffer = 0, .src = start, .end = end }` */
    constructor (bytes: seq<byte>, start: nat, stop: nat)
      ensures Valid() && mem == bytes && end == stop && State() == BitState(0, 0, start)
    {
      mem := bytes;
      end := stop;
      bits := 0;
      buffer := 0;
      src := start;
    }

    /** get_bits: `ok` is false when the refill would read a byte below `end` that lies
        outside the file; otherwise the value and the new state are those of TakeBits. */
    method GetBits(n: nat) returns (d: nat, ok: bool)
      requires Valid() && n <= 24
      modifies this
      ensures Valid()
      ensures ok <==> TakeBits(mem, end, old(State()), n).Some?
      ensures ok ==> TakeBits(mem, end, old(State()), n).value == (d, State())
    {
      if n == 0 {
        return 0, true;
      }
      while bits < 24
        invariant WellFormed(State())
        invariant Refill(mem, end, State()) == Refill(mem, end, old(State()))
        decreases 24 - bits
      {
        if src < end && src >= |mem| {
          return 0, false;
        }
        FeedFacts(mem, end, State());
        if src < end {
          buffer := buffer + mem[src] * Pow2(bits);
          src := src + 1;
        }
        bits := bits + 8;
      }
      ghost var t := State();
      assert Refill(mem, end, old(State())) == Some(t);
      DivNonneg(buffer, Pow2(n));
      ShiftBound(buffer, bits, n);
      d := buffer % Pow2(n);
      buffer := buffer / Pow2(n);
      bits := bits - n;
      ok := true;
      assert Extract(t, n) == (d, State());
    }
  }

  /** One iteration of the decoding loop as the C code runs it, calling get_bits
      up to four times; the outcome and the new reader state are DecodeStep's. */
  method NextStep(br: BitReader, m: Mode, w: nat) returns (st: Step)
    requires br.Valid() && w < Widths(m)
    modifies br
    ensures br.Valid()
    ensures st == DecodeStep(br.mem, br.end, m, old(br.State()), w).0
    ensures st != ReadFault ==> br.State() == DecodeStep(br.mem, br.end, m, old(br.State()), w).1
  {
    var d, ok := br.GetBits(w + 1);
    if !ok {
      return ReadFault;
    }
    if d < Command(m, w) {
      return Literal(d);
    }
    st := CommandStep(br, m, w, d);
  }

  /** The command part of an iteration: the `fetch` bits, then a width change or the escape. */
  method CommandStep(br: BitReader, m: Mode, w: nat, d: nat) returns (st: Step)
    requires br.Valid() && w < Widths(m) && d >= Command(m, w)
    modifies br
    ensures br.Valid()
    ensures st == DecodeCommand(br.mem, br.end, m, old(br.State()), w, d).0
    ensures st != ReadFault ==> br.State() == DecodeCommand(br.mem, br.end, m, old(br.State()), w, d).1
  {
    ghost var s1 := br.State();
    var x, ok := br.GetBits(Fetch(m, w));
    if !ok {
      return ReadFault;
    }
    assert TakeBits(br.mem, br.end, s1, Fetch(m, w)) == Some((x, br.State()));
    var newbits := x + (d - Command(m, w)) * Pow2(Fetch(m, w));
    if newbits != w {
      return NewWidth(newbits % Widths(m));
    }
    st := EscapeStep(br, m);
  }

  /** The escape part of an iteration. */
  method EscapeStep(br: BitReader, m: Mode) returns (st: Step)
    requires br.Valid()
    modifies br
    ensures br.Valid()
    ensures st == DecodeEscape(br.mem, br.end, m, old(br.State())).0
    ensures st != ReadFault ==> br.State() == DecodeEscape(br.mem, br.end, m, old(br.State())).1
  {
    var e, ok := br.GetBits(EscapeBits(m));
    if !ok {
      return ReadFault;
    }
    if e == EscapeMax(m) {
      var stop;
      stop, ok := br.GetBits(1);
      if !ok {
        return ReadFault;
      }
      if stop != 0 {
        return EndOfBlock;
      }
      return Literal(Top(m) - 1);
    }
    return Literal(EscapeBase(m) + e);
  }
}
