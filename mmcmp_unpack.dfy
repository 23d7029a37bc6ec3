/** mmcmp_unpack as the C code runs it: a zeroed output array, a loop over the block
    table, a copy loop for raw blocks and a decoding loop over a bit reader for packed
    ones. Each loop is proved to compute the corresponding function of Mmcmp. */
module MmcmpUnpack {
  import opened Bytes
  import opened MmcmpBits
  import opened Mmcmp
  import Slurp

  /** The raw-block loop `for (i = 0; i < pblk.sub_blk; i++)` with its memcpy. */
  method CopyBlock(data: seq<byte>, out: array<byte>, filesize: nat, rec: nat, count: nat, start: nat,
                   ghost target: Option<seq<byte>>)
    returns (ok: bool)
    requires CopyReaches(data, out[..], filesize, rec, count, 0, start, target)
    modifies out
    ensures ok <==> target.Some?
    ensures ok ==> out[..] == target.value
  {
    var i := 0;
    var pos: nat := start;
    while i < count
      invariant CopyReaches(data, out[..], filesize, rec, count, i, pos, target)
      decreases count - i
    {
      var done;
      done, ok, pos := CopyRecord(data, out, filesize, rec, count, i, pos, target);
      if done {
        return ok;
      }
      i := i + 1;
    }
    CopyRunNext(data, out[..], filesize, rec, count, i, pos, target);
    return true;
  }

  /** Sub-block record i of a raw block: it ends the block (`done`, with the loop's outcome
      `ok`), or its bytes are copied and the source position moves past them. */
  method CopyRecord(data: seq<byte>, out: array<byte>, filesize: nat, rec: nat, count: nat, i: nat, pos: nat,
                    ghost target: Option<seq<byte>>)
    returns (done: bool, ok: bool, next: nat)
    requires i < count && CopyReaches(data, out[..], filesize, rec, count, i, pos, target)
    modifies out
    ensures done ==> (ok <==> target.Some?) && (ok ==> out[..] == target.value)
    ensures !done ==> CopyReaches(data, out[..], filesize, rec, count, i + 1, next, target)
  {
    next := pos;
    if rec + 8 * i + 8 > |data| {
      CopyRunNext(data, out[..], filesize, rec, count, i, pos, target);
      return true, false, next;
    }
    var unpkPos: nat := LE32(data, rec + 8 * i);
    var unpkSize: nat := LE32(data, rec + 8 * i + 4);
    if unpkPos > filesize || U32(unpkPos + unpkSize) > filesize {
      CopyRunNext(data, out[..], filesize, rec, count, i, pos, target);
      return true, true, next;
    }
    if unpkSize > 0 && (unpkPos + unpkSize > out.Length || pos + unpkSize > |data|) {
      CopyRunNext(data, out[..], filesize, rec, count, i, pos, target);
      return true, false, next;
    }
    CopyRunAdvance(data, out[..], filesize, rec, count, i, pos, target, unpkPos, unpkSize);
    next := U32(pos + unpkSize);
    if unpkSize > 0 {
      Store(out, unpkPos, data[pos..pos + unpkSize]);
    }
    return false, false, next;
  }

  /** `memcpy`-style store of `bytes` at `at`. */
  method Store(out: array<byte>, at: nat, bytes: seq<byte>)
    requires at + |bytes| <= out.Length
    modifies out
    ensures out[..] == Splice(old(out[..]), at, bytes)
  {
    ghost var before := out[..];
    forall k | 0 <= k < |bytes| {
      out[at + k] := bytes[k];
    }
    assert out[..] == Splice(before, at, bytes);
  }

  /** One iteration of the decoding loop: read a code, then write a literal or change the
      width, then move to the next sub-block record when the current one is full. */
  method DecodeOnce(data: seq<byte>, out: array<byte>, p: Packing, mc: Machine, br: BitReader)
    returns (fault: bool, halt: bool, next: Machine)
    requires Ready(mc) && p.flags < 0x10000
    requires br.Valid() && br.mem == data && br.end == p.end && br.State() == mc.bs
    modifies out, br
    ensures br.Valid()
    ensures fault <==> BlockStep(data, old(out[..]), p, mc).Fault?
    ensures halt <==> BlockStep(data, old(out[..]), p, mc).Halt?
    ensures halt ==> out[..] == old(out[..])
    ensures BlockStep(data, old(out[..]), p, mc).Next? ==>
      out[..] == BlockStep(data, old(out[..]), p, mc).out
      && next == BlockStep(data, old(out[..]), p, mc).mc && br.State() == next.bs
  {
    next := mc;
    if mc.width >= Widths(p.m) {
      return true, false, next;
    }
    var st := NextStep(br, p.m, mc.width);
    match st {
      case ReadFault =>
        return true, false, next;
      case EndOfBlock =>
        return false, true, next;
      case NewWidth(w2) =>
        next := mc.(bs := br.State(), width := w2);
      case Literal(sym) =>
        fault, next := WriteLiteral(data, out, p, mc, br.State(), sym);
        return fault, false, next;
    }
    fault, next := CheckEnd(data, p, next);
    halt := false;
  }

  /** The output write of a literal, then the end-of-record check. */
  method WriteLiteral(data: seq<byte>, out: array<byte>, p: Packing, mc: Machine, bs: BitState, sym: nat)
    returns (fault: bool, next: Machine)
    requires p.flags < 0x10000
    modifies out
    ensures fault <==> !Write(data, old(out[..]), p, mc, bs, sym).Next?
    ensures !fault ==> out[..] == Write(data, old(out[..]), p, mc, bs, sym).out
    ensures !fault ==> next == Write(data, old(out[..]), p, mc, bs, sym).mc
  {
    next := mc;
    match Emit(data, p, sym, mc.oldval) {
      case None =>
        return true, next;
      case Some((bytes, ov)) =>
        var at := mc.dest + mc.destpos * Unit(p.m);
        if at + |bytes| > out.Length {
          return true, next;
        }
        Store(out, at, bytes);
        fault, next := CheckEnd(data, p, mc.(bs := bs, destpos := mc.destpos + 1, oldval := ov));
    }
  }

  /** `if (destpos >= size)`: the next sub-block record is read, faulting past the file. */
  method CheckEnd(data: seq<byte>, p: Packing, mc: Machine) returns (fault: bool, next: Machine)
    ensures fault <==> EndCheck(data, [], p, mc).Fault?
    ensures !fault ==> next == EndCheck(data, [], p, mc).mc
  {
    next := mc;
    if mc.destpos >= mc.size {
      if p.rec + 8 * (mc.subblk + 1) + 8 > |data| {
        return true, next;
      }
      var unpkPos := LE32(data, p.rec + 8 * (mc.subblk + 1));
      var unpkSize := LE32(data, p.rec + 8 * (mc.subblk + 1) + 4);
      next := mc.(subblk := mc.subblk + 1, destpos := 0, size := Units(p.m, unpkSize), dest := unpkPos);
    }
    return false, next;
  }

  /** The packed-block loop `while (subblk < pblk.sub_blk)`, 8-bit or 16-bit. */
  method DecodeBlock(data: seq<byte>, out: array<byte>, p: Packing, mc0: Machine, ghost target: Option<seq<byte>>)
    returns (ok: bool)
    requires RunReaches(data, out[..], p, mc0, target) && mc0.bs.bits == 0 && mc0.bs.buffer == 0
    modifies out
    ensures ok <==> target.Some?
    ensures ok ==> out[..] == target.value
  {
    var br := new BitReader(data, mc0.bs.src, p.end);
    var mc := mc0;
    while mc.subblk < p.count
      invariant br.Valid() && br.mem == data && br.end == p.end && mc.bs == br.State()
      invariant RunReaches(data, out[..], p, mc, target)
      decreases p.count - mc.subblk, Room(mc), Left(mc, p.end), mc.bs.buffer
    {
      BlockStepFacts(data, out[..], p, mc);
      RunNext(data, out[..], p, mc, target);
      var fault, halt, next := DecodeOnce(data, out, p, mc, br);
      if fault {
        return false;
      }
      if halt {
        return true;
      }
      mc := next;
    }
    return true;
  }

  /** Block b's entry of the block table, read with the checks the C code leaves out. */
  method ReadEntry(data: seq<byte>, h: Header, b: nat) returns (e: Entry)
    ensures e == EntryAt(data, h, b)
  {
    if h.blktable + 4 * b + 4 > |data| {
      return EntryFault;
    }
    var pos := LE32(data, h.blktable + 4 * b);
    if pos + 20 > |data| {
      return EntryFault;
    }
    var blk := ParseBlock(data, pos);
    if U32(pos + 20) >= |data| || U32(pos + 20 + blk.subBlk * 8) >= |data| {
      return EntryStop;
    }
    return EntryRun(blk, pos + 20, U32(pos + 20 + blk.subBlk * 8));
  }

  /** One block after its header check: the copy loop or the decoding loop. */
  method RunOneBlock(data: seq<byte>, out: array<byte>, filesize: nat, blk: Block, rec: nat, start: nat)
    returns (ok: bool)
    requires filesize <= out.Length && blk.flags < 0x10000
    modifies out
    ensures ok <==> RunBlock(data, old(out[..]), filesize, blk, rec, start).Some?
    ensures ok ==> out[..] == RunBlock(data, old(out[..]), filesize, blk, rec, start).value
  {
    if !HasFlag(blk.flags, MM_COMP) {
      ok := CopyBlock(data, out, filesize, rec, blk.subBlk, start, CopyRun(data, out[..], filesize, rec, blk.subBlk, 0, start));
    } else {
      if rec + 8 > |data| {
        return false;
      }
      var m := if HasFlag(blk.flags, MM_16BIT) then Bits16 else Bits8;
      var unpkPos := LE32(data, rec);
      var unpkSize := LE32(data, rec + 4);
      var p := Packing(m, blk.flags, start, rec, blk.subBlk, start + blk.pkSize);
      var mc := Machine(BitState(0, 0, start + blk.ttEntries), blk.numBits, 0, 0, Units(m, unpkSize), unpkPos, 0);
      assert Start(data, blk, rec, start) == Some((p, mc));
      ok := DecodeBlock(data, out, p, mc, Run(data, out[..], p, mc));
    }
  }

  /** One iteration of the block loop: read the block's entry, stop at a block that reaches
      the end of the file, otherwise copy or decode it. */
  method UnpackBlock(data: seq<byte>, out: array<byte>, h: Header, b: nat, ghost target: Option<seq<byte>>)
    returns (fault: bool, stop: bool)
    requires b < h.blocks && BlocksReach(data, out[..], h, b, target)
    modifies out
    ensures fault ==> target == None
    ensures stop ==> !fault && target == Some(out[..])
    ensures !fault && !stop ==> BlocksReach(data, out[..], h, b + 1, target)
  {
    BlockRunNext(data, out[..], h, b, target);
    var e := ReadEntry(data, h, b);
    match e {
      case EntryFault =>
        return true, false;
      case EntryStop =>
        return false, true;
      case EntryRun(blk, rec, start) =>
        var ok := RunOneBlock(data, out, h.filesize, blk, rec, start);
        return !ok, false;
    }
  }

  /** mmcmp_unpack: the header gate, a zeroed allocation of (filesize + 31) & ~15 bytes,
      the block loop, and the first `filesize` bytes as the result. */
  method Unpack(data: seq<byte>) returns (r: Unpacked)
    ensures r == UnpackSpec(data)
    ensures r.NotPacked? <==> !Accepted(data)
    ensures r.Packed? ==> |r.bytes| == ParseHeader(data).filesize
  {
    UnpackGate(data);
    if !Accepted(data) {
      return NotPacked;
    }
    var h := ParseHeader(data);
    var out := new byte[AllocSize(h.filesize)](_ => 0);
    assert out[..] == Zeros(AllocSize(h.filesize));
    var block := 0;
    ghost var target := BlockRun(data, out[..], h, 0);
    while block < h.blocks
      invariant out.Length == AllocSize(h.filesize)
      invariant BlocksReach(data, out[..], h, block, target)
      decreases h.blocks - block
    {
      var fault, stop := UnpackBlock(data, out, h, block, target);
      if fault {
        return OutOfBounds;
      }
      if stop {
        break;
      }
      block := block + 1;
    }
    if block >= h.blocks {
      BlockRunEnd(data, out[..], h, block, target);
    }
    return Packed(out[..h.filesize]);
  }

  /** The unpack-or-keep step of `slurp`: a cursor at position 0 over the unpacked bytes when
      mmcmp_unpack succeeds, over the file's own bytes when it declines. The C code's behaviour
      after an access outside the file or the allocation is undefined; here it yields null. */
  method Open(data: seq<byte>) returns (t: Slurp.Cursor?)
    ensures t != null ==> fresh(t) && t.Valid() && t.pos == 0
    ensures t == null <==> UnpackSpec(data).OutOfBounds?
    ensures !Accepted(data) ==> t != null && t.data == data
    ensures Accepted(data) && t != null ==>
      t.data == UnpackSpec(data).bytes && |t.data| == ParseHeader(data).filesize
  {
    var r := Unpack(data);
    match r {
      case NotPacked =>
        t := new Slurp.Cursor(data);
      case Packed(bytes) =>
        t := new Slurp.Cursor(bytes);
      case OutOfBounds =>
        t := null;
    }
  }
}
