/** The MMCMP ("ziRCONia") unpacker, mmcmp_unpack in schism/slurp.c.

    A packed file is a 24-byte header, a table of block offsets, and blocks. Each
    block is a 20-byte header, a table of sub-block records (destination offset and
    size, 8 bytes each) and its data: raw bytes, or an adaptive-width bit stream
    (MmcmpBits) that the decoder turns into bytes or 16-bit words.

    Every read or write the C code performs without a bounds check is checked
    here: when it would leave the file or the output allocation the unpacker's
    outcome is OutOfBounds. */
module Mmcmp {
  import opened Bytes
  import opened MmcmpBits

  // ---------------------------------------------------------------------------
  // Header and block layout

  const MM_COMP: bv16 := 0x0001
  const MM_DELTA: bv16 := 0x0002
  const MM_16BIT: bv16 := 0x0004
  const MM_ABS16: bv16 := 0x0200

  /** `flags & f` for a 16-bit flags field. */
  function HasFlag(flags: nat, f: bv16): bool
    requires flags < 0x10000
  {
    (flags as bv16) & f != 0
  }

  /** "ziRCONia" */
  const MAGIC: seq<byte> := [0x7A, 0x69, 0x52, 0x43, 0x4F, 0x4E, 0x69, 0x61]

  /** `mm_header_t` after the magic: every field little-endian. */
  datatype Header = Header(hdrsize: nat, version: nat, blocks: nat, filesize: nat, blktable: nat)

  function ParseHeader(data: seq<byte>): Header
    requires |data| >= 24
  {
    Header(LE16(data, 8), LE16(data, 10), LE16(data, 12), LE32(data, 14), LE32(data, 18))
  }

  /** The header gate of mmcmp_unpack. `blktable + 4 * blocks` is computed in 32 bits. */
  predicate Accepted(data: seq<byte>) {
    |data| >= 256
    && data[..8] == MAGIC
    && var h := ParseHeader(data);
       h.hdrsize >= 14 && h.blocks != 0
       && 16 <= h.filesize <= 0x8000000
       && h.blktable < |data|
       && U32(h.blktable + 4 * h.blocks) <= |data|
  }

  /** `(filesize + 31) & ~15`: the size of the zeroed output allocation. */
  function AllocSize(filesize: nat): (r: nat)
    ensures r >= filesize + 16 && r % 16 == 0
  {
    (filesize + 31) / 16 * 16
  }

  /** A 32-bit little-endian read at `off`, or None when it would leave the file. */
  function Read32(data: seq<byte>, off: nat): (r: Option<nat>)
    ensures r.Some? <==> off + 4 <= |data|
    ensures r.Some? ==> r.value < U32_MOD
  {
    if off + 4 <= |data| then Some(LE32(data, off)) else None
  }

  /** `mm_block_t` */
  datatype Block = Block(unpkSize: nat, pkSize: nat, xorChk: nat, subBlk: nat,
                         flags: nat, ttEntries: nat, numBits: nat)

  function ParseBlock(data: seq<byte>, pos: nat): (b: Block)
    requires pos + 20 <= |data|
    ensures b.subBlk < 0x10000 && b.flags < 0x10000 && b.ttEntries < 0x10000 && b.numBits < 0x10000
  {
    Block(LE32(data, pos), LE32(data, pos + 4), LE32(data, pos + 8), LE16(data, pos + 12),
          LE16(data, pos + 14), LE16(data, pos + 16), LE16(data, pos + 18))
  }

  /** Sub-block record k of the table at `rec`: (unpk_pos, unpk_size), or None past the file. */
  function SubBlock(data: seq<byte>, rec: nat, k: nat): (r: Option<(nat, nat)>)
    ensures r.Some? <==> rec + 8 * k + 8 <= |data|
  {
    if rec + 8 * k + 8 <= |data| then Some((LE32(data, rec + 8 * k), LE32(data, rec + 8 * k + 4)))
    else None
  }

  /** The outcome of mmcmp_unpack: not a packed file (return 0, data kept), the unpacked
      bytes (return 1), or an access outside the file or the allocation (undefined in C). */
  datatype Unpacked = NotPacked | Packed(bytes: seq<byte>) | OutOfBounds

  /** `memcpy(out + at, bytes, |bytes|)` on a value. */
  function Splice(out: seq<byte>, at: nat, bytes: seq<byte>): (r: seq<byte>)
    requires at + |bytes| <= |out|
    ensures |r| == |out|
    ensures forall i :: 0 <= i < |r| ==> r[i] == if at <= i < at + |bytes| then bytes[i - at] else out[i]
  {
    out[..at] + bytes + out[at + |bytes|..]
  }

  // ---------------------------------------------------------------------------
  // Uncompressed blocks

  /** Copies sub-blocks i.. of an uncompressed block; `src` is the running 32-bit source
      position. A sub-block that does not fit in `filesize` (32-bit sum) ends the block. */
  function CopyRun(data: seq<byte>, out: seq<byte>, filesize: nat, rec: nat, count: nat, i: nat, src: nat)
    : (r: Option<seq<byte>>)
    requires filesize <= |out|
    ensures r.Some? ==> |r.value| == |out|
    decreases count - i
  {
    if i >= count then Some(out)
    else
      match SubBlock(data, rec, i)
      case None => None
      case Some((up, us)) =>
        if up > filesize || U32(up + us) > filesize then Some(out)
        else if us > 0 && (up + us > |out| || src + us > |data|) then None
        else
          var o := if us == 0 then out else Splice(out, up, data[src..src + us]);
          CopyRun(data, o, filesize, rec, count, i + 1, U32(src + us))
  }

  /** The copy loop at sub-block i with source position `src` is on its way to `target`. */
  predicate CopyReaches(data: seq<byte>, out: seq<byte>, filesize: nat, rec: nat, count: nat, i: nat, src: nat,
                        target: Option<seq<byte>>)
  {
    filesize <= |out| && CopyRun(data, out, filesize, rec, count, i, src) == target
  }

  /** Where the copy loop goes from sub-block i: the end of the table, a record outside the
      file, a record that ends the block, or one whose copy would leave the file or the output. */
  lemma CopyRunNext(data: seq<byte>, out: seq<byte>, filesize: nat, rec: nat, count: nat, i: nat, src: nat,
                    target: Option<seq<byte>>)
    requires CopyReaches(data, out, filesize, rec, count, i, src, target)
    ensures i >= count ==> target == Some(out)
    ensures i < count && rec + 8 * i + 8 > |data| ==> target == None
    ensures i < count && rec + 8 * i + 8 <= |data| ==>
      var up, us := LE32(data, rec + 8 * i), LE32(data, rec + 8 * i + 4);
      && (up > filesize || U32(up + us) > filesize ==> target == Some(out))
      && (up <= filesize && U32(up + us) <= filesize && us > 0 && (up + us > |out| || src + us > |data|)
          ==> target == None)
  {
  }

  /** A record that fits is copied and the loop moves to the next one. */
  lemma CopyRunAdvance(data: seq<byte>, out: seq<byte>, filesize: nat, rec: nat, count: nat, i: nat, src: nat,
                       target: Option<seq<byte>>, up: nat, us: nat)
    requires CopyReaches(data, out, filesize, rec, count, i, src, target)
    requires i < count && rec + 8 * i + 8 <= |data|
    requires up == LE32(data, rec + 8 * i) && us == LE32(data, rec + 8 * i + 4)
    requires up <= filesize && U32(up + us) <= filesize
    requires us > 0 ==> up + us <= |out| && src + us <= |data|
    ensures us == 0 ==> CopyReaches(data, out, filesize, rec, count, i + 1, U32(src + us), target)
    ensures us > 0 ==>
      CopyReaches(data, Splice(out, up, data[src..src + us]), filesize, rec, count, i + 1, U32(src + us), target)
  {
  }

  // ---------------------------------------------------------------------------
  // Compressed blocks

  /** The fixed parameters of a compressed block: mode, flags, translation table offset
      (8-bit), sub-block table offset and count, and the end of the packed stream. */
  datatype Packing = Packing(m: Mode, flags: nat, table: nat, rec: nat, count: nat, end: nat)

  /** The loop state of the decoder: bit reader, width (`numbits`), current sub-block,
      position in it (`destpos`, in units), its size in units, its destination offset,
      and the running delta value. */
  datatype Machine = Machine(bs: BitState, width: nat, subblk: nat, destpos: nat,
                             size: nat, dest: nat, oldval: nat)

  ghost predicate Ready(mc: Machine) {
    WellFormed(mc.bs) && (mc.destpos == 0 || mc.destpos < mc.size)
  }

  /** Bytes per output unit. */
  function Unit(m: Mode): nat {
    if m.Bits8? then 1 else 2
  }

  /** A record's `unpk_size` in output units: bytes, or `>> 1` for words. */
  function Units(m: Mode, unpkSize: nat): nat {
    if m.Bits8? then unpkSize else unpkSize / 2
  }

  /** The zig-zag fold of the 16-bit mode: odd codes are negative, even codes non-negative. */
  function Unfold(v: nat): int {
    if v % 2 == 1 then -((v + 1) / 2) else v / 2
  }

  /** The value the encoder would have folded: the inverse of Unfold. */
  function Fold(x: int): nat {
    if x >= 0 then 2 * x else -2 * x - 1
  }

  /** A 16-bit word as its two little-endian bytes. */
  function WordBytes(w: nat): (r: seq<byte>)
    requires w < 0x10000
    ensures |r| == 2 && r[0] as int + 256 * (r[1] as int) == w
  {
    DivBelow(w, 256, 256);
    [w % 256, w / 256]
  }

  /** `word ^ 0x8000` on a 16-bit word: bit 15 toggled. */
  function FlipSign(w: nat): nat
    requires w < 0x10000
  {
    if w >= 0x8000 then w - 0x8000 else w + 0x8000
  }

  /** What a literal writes and the new `oldval`, or None when the 8-bit translation table
      read `ptable[sym]` leaves the file. The 16-bit word is the unfolded code, reduced to
      32 bits, then accumulated (MM_DELTA) or, unless MM_ABS16, sign-flipped. */
  function Emit(data: seq<byte>, p: Packing, sym: nat, oldval: nat): (r: Option<(seq<byte>, nat)>)
    requires p.flags < 0x10000
    ensures r.Some? ==> |r.value.0| == Unit(p.m)
  {
    if p.m.Bits8? then
      if p.table + sym >= |data| then None
      else
        var t := data[p.table + sym];
        if HasFlag(p.flags, MM_DELTA) then var n := U32(t as int + oldval); Some(([n % 256], n))
        else Some(([t], oldval))
    else
      var z := U32(Unfold(sym));
      if HasFlag(p.flags, MM_DELTA) then var v := U32(z + oldval); Some((WordBytes(v % 0x10000), v))
      else if !HasFlag(p.flags, MM_ABS16) then Some((WordBytes(FlipSign(z % 0x10000)), oldval))
      else Some((WordBytes(z % 0x10000), oldval))
  }

  /** One decoding-loop iteration's effect: stop the block, fault, or go on. */
  datatype Progress = Halt(out: seq<byte>) | Fault | Next(out: seq<byte>, mc: Machine)

  /** `if (destpos >= size)`: move to the next sub-block record (read even past the last). */
  function EndCheck(data: seq<byte>, out: seq<byte>, p: Packing, mc: Machine): Progress {
    if mc.destpos >= mc.size then
      match SubBlock(data, p.rec, mc.subblk + 1)
      case None => Fault
      case Some((up, us)) =>
        Next(out, mc.(subblk := mc.subblk + 1, destpos := 0, size := Units(p.m, us), dest := up))
    else Next(out, mc)
  }

  /** One iteration of the decoding loop: a width outside the command table faults;
      a literal is written at `dest + destpos` units, which must lie inside the allocation. */
  function BlockStep(data: seq<byte>, out: seq<byte>, p: Packing, mc: Machine): Progress
    requires WellFormed(mc.bs) && p.flags < 0x10000
  {
    if mc.width >= Widths(p.m) then Fault
    else
      var (st, bs) := DecodeStep(data, p.end, p.m, mc.bs, mc.width);
      match st
      case ReadFault => Fault
      case EndOfBlock => Halt(out)
      case NewWidth(w2) => EndCheck(data, out, p, mc.(bs := bs, width := w2))
      case Literal(sym) => Write(data, out, p, mc, bs, sym)
  }

  /** A literal is written at `dest + destpos` units, which must lie inside the allocation,
      and the reader state `bs` after its code is kept. */
  function Write(data: seq<byte>, out: seq<byte>, p: Packing, mc: Machine, bs: BitState, sym: nat): (r: Progress)
    requires p.flags < 0x10000
    ensures !r.Halt?
  {
    match Emit(data, p, sym, mc.oldval)
    case None => Fault
    case Some((bytes, ov)) =>
      var at := mc.dest + mc.destpos * Unit(p.m);
      if at + |bytes| > |out| then Fault
      else EndCheck(data, Splice(out, at, bytes), p, mc.(bs := bs, destpos := mc.destpos + 1, oldval := ov))
  }

  /** How much of the current sub-block remains. */
  function Room(mc: Machine): nat {
    if mc.destpos < mc.size then mc.size - mc.destpos else 0
  }

  /** How many stream bytes remain unread. */
  function Left(mc: Machine, end: nat): nat {
    if mc.bs.src < end then end - mc.bs.src else 0
  }

  /** The loop's measure decreases: sub-blocks, then room, then unread bytes, then buffer. */
  ghost predicate Below(a: Machine, b: Machine, p: Packing) {
    a.subblk > b.subblk
    || (a.subblk == b.subblk
        && (Room(a) < Room(b)
            || (Room(a) == Room(b)
                && (Left(a, p.end) < Left(b, p.end)
                    || (Left(a, p.end) == Left(b, p.end) && a.bs.buffer < b.bs.buffer)))))
  }

  lemma EndCheckFacts(data: seq<byte>, out: seq<byte>, p: Packing, mc: Machine, old_: Machine)
    requires WellFormed(mc.bs)
    requires mc.subblk == old_.subblk
    requires (mc.destpos == old_.destpos + 1 && mc.size == old_.size && (old_.destpos == 0 || old_.destpos < old_.size))
          || (mc.destpos == old_.destpos && mc.size == old_.size && Advanced(old_.bs, mc.bs, p.end)
              && (old_.destpos == 0 || old_.destpos < old_.size))
    ensures EndCheck(data, out, p, mc).Next? ==>
      Ready(EndCheck(data, out, p, mc).mc) && Below(EndCheck(data, out, p, mc).mc, old_, p)
  {
  }

  /** A step that goes on leaves the machine ready and strictly below where it was. */
  lemma BlockStepFacts(data: seq<byte>, out: seq<byte>, p: Packing, mc: Machine)
    requires Ready(mc) && p.flags < 0x10000
    ensures BlockStep(data, out, p, mc).Next? ==>
      Ready(BlockStep(data, out, p, mc).mc) && Below(BlockStep(data, out, p, mc).mc, mc, p)
    ensures BlockStep(data, out, p, mc).Next? ==> |BlockStep(data, out, p, mc).out| == |out|
    ensures BlockStep(data, out, p, mc).Halt? ==> BlockStep(data, out, p, mc).out == out
  {
    if mc.width < Widths(p.m) {
      DecodeStepFacts(data, p.end, p.m, mc.bs, mc.width);
      var (st, bs) := DecodeStep(data, p.end, p.m, mc.bs, mc.width);
      match st
      case ReadFault =>
      case EndOfBlock =>
      case NewWidth(w2) =>
        EndCheckFacts(data, out, p, mc.(bs := bs, width := w2), mc);
      case Literal(sym) =>
        LiteralStepFacts(data, out, p, mc, bs, sym);
    }
  }

  lemma LiteralStepFacts(data: seq<byte>, out: seq<byte>, p: Packing, mc: Machine, bs: BitState, sym: nat)
    requires Ready(mc) && p.flags < 0x10000 && WellFormed(bs)
    ensures var r := Write(data, out, p, mc, bs, sym);
      r.Next? ==> Ready(r.mc) && Below(r.mc, mc, p) && |r.out| == |out|
  {
    match Emit(data, p, sym, mc.oldval)
    case None =>
    case Some((bytes, ov)) =>
      var at := mc.dest + mc.destpos * Unit(p.m);
      if at + |bytes| <= |out| {
        EndCheckFacts(data, Splice(out, at, bytes), p, mc.(bs := bs, destpos := mc.destpos + 1, oldval := ov), mc);
      }
  }

  /** The decoding loop `while (subblk < pblk.sub_blk)` of one compressed block. */
  function Run(data: seq<byte>, out: seq<byte>, p: Packing, mc: Machine): (r: Option<seq<byte>>)
    requires Ready(mc) && p.flags < 0x10000
    ensures r.Some? ==> |r.value| == |out|
    decreases p.count - mc.subblk, Room(mc), Left(mc, p.end), mc.bs.buffer
  {
    if mc.subblk >= p.count then Some(out)
    else
      BlockStepFacts(data, out, p, mc);
      match BlockStep(data, out, p, mc)
      case Fault => None
      case Halt(o) => Some(o)
      case Next(o, mc2) => Run(data, o, p, mc2)
  }

  /** The decoding loop at machine state `mc` is on its way to `target`. */
  ghost predicate RunReaches(data: seq<byte>, out: seq<byte>, p: Packing, mc: Machine, target: Option<seq<byte>>) {
    Ready(mc) && p.flags < 0x10000 && Run(data, out, p, mc) == target
  }

  /** Where the decoding loop goes from `mc`. */
  lemma RunNext(data: seq<byte>, out: seq<byte>, p: Packing, mc: Machine, target: Option<seq<byte>>)
    requires RunReaches(data, out, p, mc, target) && mc.subblk < p.count
    ensures match BlockStep(data, out, p, mc)
      case Fault => target == None
      case Halt(o) => target == Some(o)
      case Next(o, mc2) => RunReaches(data, o, p, mc2, target)
  {
    BlockStepFacts(data, out, p, mc);
  }

  // ---------------------------------------------------------------------------
  // The block table

  /** Packing and initial machine of a compressed block whose sub-block table is at `rec` and
      whose data starts at `start`; None when the first record leaves the file. */
  function Start(data: seq<byte>, blk: Block, rec: nat, start: nat): Option<(Packing, Machine)>
    requires blk.flags < 0x10000
  {
    var m := if HasFlag(blk.flags, MM_16BIT) then Bits16 else Bits8;
    match SubBlock(data, rec, 0)
    case None => None
    case Some((up, us)) =>
      Some((Packing(m, blk.flags, start, rec, blk.subBlk, start + blk.pkSize),
            Machine(BitState(0, 0, start + blk.ttEntries), blk.numBits, 0, 0, Units(m, us), up, 0)))
  }

  /** One block after its header check: copied, or decoded. */
  function RunBlock(data: seq<byte>, out: seq<byte>, filesize: nat, blk: Block, rec: nat, start: nat)
    : (r: Option<seq<byte>>)
    requires filesize <= |out| && blk.flags < 0x10000
    ensures r.Some? ==> |r.value| == |out|
  {
    if !HasFlag(blk.flags, MM_COMP) then CopyRun(data, out, filesize, rec, blk.subBlk, 0, start)
    else
      match Start(data, blk, rec, start)
      case None => None
      case Some((p, mc)) => Run(data, out, p, mc)
  }

  /** Block b's entry in the block table: an offset or header outside the file (a fault),
      a block whose header or sub-block table reaches the end of the file (32-bit sums; the
      loop stops there, although the header has been read), or a block to run. */
  datatype Entry = EntryFault | EntryStop | EntryRun(blk: Block, rec: nat, start: nat)

  function EntryAt(data: seq<byte>, h: Header, b: nat): (e: Entry)
    ensures e.EntryRun? ==> e.blk.flags < 0x10000
  {
    match Read32(data, h.blktable + 4 * b)
    case None => EntryFault
    case Some(pos) =>
      if pos + 20 > |data| then EntryFault
      else
        var blk := ParseBlock(data, pos);
        if U32(pos + 20) >= |data| || U32(pos + 20 + blk.subBlk * 8) >= |data| then EntryStop
        else EntryRun(blk, pos + 20, U32(pos + 20 + blk.subBlk * 8))
  }

  /** The block loop from block b on. */
  function BlockRun(data: seq<byte>, out: seq<byte>, h: Header, b: nat): (r: Option<seq<byte>>)
    requires h.filesize <= |out|
    ensures r.Some? ==> |r.value| == |out|
    decreases h.blocks - b
  {
    if b >= h.blocks then Some(out)
    else
      match EntryAt(data, h, b)
      case EntryFault => None
      case EntryStop => Some(out)
      case EntryRun(blk, rec, start) =>
        match RunBlock(data, out, h.filesize, blk, rec, start)
        case None => None
        case Some(o) => BlockRun(data, o, h, b + 1)
  }

  /** The block loop at block b is on its way to `target`. */
  predicate BlocksReach(data: seq<byte>, out: seq<byte>, h: Header, b: nat, target: Option<seq<byte>>) {
    h.filesize <= |out| && BlockRun(data, out, h, b) == target
  }

  lemma BlockRunEnd(data: seq<byte>, out: seq<byte>, h: Header, b: nat, target: Option<seq<byte>>)
    requires BlocksReach(data, out, h, b, target) && b >= h.blocks
    ensures target == Some(out)
  {
  }

  /** Where the block loop goes from block b. */
  lemma BlockRunNext(data: seq<byte>, out: seq<byte>, h: Header, b: nat, target: Option<seq<byte>>)
    requires BlocksReach(data, out, h, b, target) && b < h.blocks
    ensures match EntryAt(data, h, b)
      case EntryFault => target == None
      case EntryStop => target == Some(out)
      case EntryRun(blk, rec, start) =>
        match RunBlock(data, out, h.filesize, blk, rec, start)
        case None => target == None
        case Some(o) => BlocksReach(data, o, h, b + 1, target)
  {
  }

  /** mmcmp_unpack as a function of the file's bytes. */
  function UnpackSpec(data: seq<byte>): Unpacked {
    if !Accepted(data) then NotPacked
    else
      var h := ParseHeader(data);
      match BlockRun(data, Zeros(AllocSize(h.filesize)), h, 0)
      case None => OutOfBounds
      case Some(o) => Packed(o[..h.filesize])
  }

  // ---------------------------------------------------------------------------
  // Properties

  /** The gate: the file is left alone exactly when one of the header conditions fails,
      and an unpacked file is exactly `filesize` bytes long. */
  lemma UnpackGate(data: seq<byte>)
    ensures UnpackSpec(data).NotPacked? <==> !Accepted(data)
    ensures UnpackSpec(data).Packed? ==> |UnpackSpec(data).bytes| == ParseHeader(data).filesize
  {
  }

  /** The zig-zag fold is a bijection between 16-bit codes and [-32768, 32767]. */
  lemma UnfoldFold(x: int)
    requires -0x8000 <= x < 0x8000
    ensures Fold(x) < 0x10000 && Unfold(Fold(x)) == x
  {
  }

  lemma FoldUnfold(v: nat)
    ensures Fold(Unfold(v)) == v
  {
  }

  /** Sign flip twice is the identity, so MM_ABS16-less words are offset-binary samples. */
  lemma FlipSignInvolution(w: nat)
    requires w < 0x10000
    ensures FlipSign(w) < 0x10000 && FlipSign(FlipSign(w)) == w
    ensures FlipSign(w) == (w + 0x8000) % 0x10000
  {
  }

  /** The signed 16-bit difference from `prev` to `target`, in [-32768, 32767]. */
  function Delta16(prev: nat, target: nat): (x: int)
    ensures -0x8000 <= x < 0x8000
  {
    var d := (target - prev) % 0x10000;
    if d >= 0x8000 then d - 0x10000 else d
  }

  /** Round trip of the 16-bit delta mode: folding the difference from the previous word
      makes the decoder emit the target word. */
  lemma DeltaRoundTrip(data: seq<byte>, p: Packing, oldval: nat, target: nat)
    requires p.m.Bits16? && p.flags < 0x10000 && HasFlag(p.flags, MM_DELTA)
    requires oldval < U32_MOD && target < 0x10000
    ensures Emit(data, p, Fold(Delta16(oldval, target)), oldval).Some?
    ensures Emit(data, p, Fold(Delta16(oldval, target)), oldval).value.0 == WordBytes(target)
  {
    var x := Delta16(oldval, target);
    UnfoldFold(x);
    var z := U32(x);
    var v := U32(z + oldval);
    LowWordOfU32(z + oldval);
    LowWordOfU32(x);
    ModAddCongruent(z, x, oldval, 0x10000);
    Delta16Congruent(oldval, target);
    ModAddCongruent(x, target - oldval, oldval, 0x10000);
    DivModUnique(target, 0x10000, 0, target);
    assert v % 0x10000 == target;
  }

  /** The signed delta agrees with target - prev modulo 2^16. */
  lemma Delta16Congruent(prev: nat, target: nat)
    ensures Delta16(prev, target) % 0x10000 == (target - prev) % 0x10000
  {
    var d := (target - prev) % 0x10000;
    DivModUnique(Delta16(prev, target), 0x10000, if d >= 0x8000 then -1 else 0, d);
  }

  /** Round trip of the 16-bit absolute mode without MM_ABS16: folding the sign-flipped
      target makes the decoder emit the target word. */
  lemma FlippedRoundTrip(data: seq<byte>, p: Packing, oldval: nat, target: nat)
    requires p.m.Bits16? && p.flags < 0x10000 && !HasFlag(p.flags, MM_DELTA) && !HasFlag(p.flags, MM_ABS16)
    requires target < 0x10000
    ensures var w := FlipSign(target);
      var x := if w >= 0x8000 then w as int - 0x10000 else w;
      Emit(data, p, Fold(x), oldval) == Some((WordBytes(target), oldval))
  {
    FlipSignInvolution(target);
    var w := FlipSign(target);
    var x := if w >= 0x8000 then w as int - 0x10000 else w;
    UnfoldFold(x);
    LowWordOfU32(x);
    DivModUnique(x, 0x10000, if w >= 0x8000 then -1 else 0, w);
    assert U32(Unfold(Fold(x))) % 0x10000 == w;
  }

  /** The 8-bit mode maps each literal through the translation table, adding `oldval` in
      delta mode: the byte written is (table[sym] + oldval) mod 256. */
  lemma TableLiteral(data: seq<byte>, p: Packing, sym: nat, oldval: nat)
    requires p.m.Bits8? && p.flags < 0x10000 && p.table + sym < |data| && oldval < U32_MOD
    ensures Emit(data, p, sym, oldval).Some?
    ensures HasFlag(p.flags, MM_DELTA) ==>
      Emit(data, p, sym, oldval).value.0 == [(data[p.table + sym] + oldval) % 256]
    ensures !HasFlag(p.flags, MM_DELTA) ==>
      Emit(data, p, sym, oldval).value == ([data[p.table + sym]], oldval)
  {
  }
}
