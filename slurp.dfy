/** The byte source of schism/slurp.c: an owned buffer with a read position.
    Reads past the end are zero-filled, single-byte reads report EOF, and a
    seek outside [0, length] fails and leaves the position where it was. */
module Slurp {
  import opened Bytes

  const EOF: int := -1

  const SEEK_SET: int := 0
  const SEEK_CUR: int := 1
  const SEEK_END: int := 2

  /** The position `slurp_seek` aims at; any `whence` other than CUR and END acts as SET. */
  function SeekTarget(offset: int, whence: int, pos: nat, length: nat): int {
    if whence == SEEK_CUR then offset + pos
    else if whence == SEEK_END then offset + length
    else offset
  }

  /** The number of bytes a peek or read of `count` bytes takes from the buffer. */
  function Available(length: nat, pos: nat, count: nat): (n: nat)
    requires pos <= length
    ensures n <= count && pos + n <= length
    ensures n == count || pos + n == length
  {
    Min(count, length - pos)
  }

  /** The byte at offset `k`, or 0 past the end: what a zero-filled read delivers. */
  function ByteAt(data: seq<byte>, k: nat): byte {
    if k < |data| then data[k] else 0
  }

  /** The `count` bytes that `slurp_peek` stores: the available ones, then zeros. */
  function PeekBytes(data: seq<byte>, pos: nat, count: nat): (r: seq<byte>)
    requires pos <= |data|
    ensures |r| == count
    ensures forall i :: 0 <= i < count ==> r[i] == ByteAt(data, pos + i)
  {
    var n := Available(|data|, pos, count);
    data[pos..pos + n] + Zeros(count - n)
  }

  /** The position after `slurp_seek`: the target when it lies in [0, length], otherwise unchanged. */
  function SeekPos(length: nat, pos: nat, offset: int, whence: int): (r: nat)
    requires pos <= length
    ensures r <= length
  {
    var target := SeekTarget(offset, whence, pos, length);
    if 0 <= target <= length then target else pos
  }

  /** What `slurp_getc` returns at `pos`: the byte there, or EOF at the end. */
  function GetcAt(data: seq<byte>, pos: nat): (c: int)
    ensures -1 <= c < 256
    ensures c == EOF <==> pos >= |data|
  {
    if pos < |data| then data[pos] else EOF
  }

  /** The position after `slurp_read` of `count` bytes at `pos`. */
  function AfterRead(data: seq<byte>, pos: nat, count: nat): (r: nat)
    requires pos <= |data|
    ensures r <= |data| && r == Min(pos + count, |data|)
  {
    pos + Available(|data|, pos, count)
  }

  /** Two consecutive reads deliver what one read of the combined length does,
      so a loader may read a record field by field. */
  lemma ReadsConcatenate(data: seq<byte>, pos: nat, a: nat, b: nat)
    requires pos <= |data|
    ensures PeekBytes(data, pos, a + b)
         == PeekBytes(data, pos, a) + PeekBytes(data, pos + Available(|data|, pos, a), b)
  {
    var n := Available(|data|, pos, a);
    var lhs := PeekBytes(data, pos, a + b);
    var rhs := PeekBytes(data, pos, a) + PeekBytes(data, pos + n, b);
    assert |lhs| == |rhs|;
    forall i | 0 <= i < a + b
      ensures lhs[i] == rhs[i]
    {
      if i >= a {
        assert rhs[i] == ByteAt(data, pos + n + (i - a));
        if n < a {
          assert pos + n == |data|;
        }
      }
    }
  }

  class Cursor {
    const data: seq<byte>
    var pos: nat

    ghost predicate Valid()
      reads this
    {
      pos <= |data|
    }

    constructor (bytes: seq<byte>)
      ensures Valid() && data == bytes && pos == 0
    {
      data := bytes;
      pos := 0;
    }

    /** slurp_seek: 0 and the new position when the target lies in [0, length], otherwise -1 and no move. */
    method Seek(offset: int, whence: int) returns (r: int)
      requires Valid()
      modifies this`pos
      ensures Valid()
      ensures var target := SeekTarget(offset, whence, old(pos), |data|);
              if 0 <= target <= |data| then r == 0 && pos == target
              else r == -1 && pos == old(pos)
      ensures pos == SeekPos(|data|, old(pos), offset, whence)
    {
      var target := SeekTarget(offset, whence, pos, |data|);
      if target < 0 || target > |data| {
        return -1;
      }
      pos := target;
      return 0;
    }

    /** slurp_rewind: a seek to offset 0, which always succeeds. */
    method Rewind()
      requires Valid()
      modifies this`pos
      ensures Valid() && pos == 0
    {
      var _ := Seek(0, SEEK_SET);
    }

    /** slurp_tell: the position never lies beyond the end of the buffer. */
    function Tell(): (r: nat)
      reads this
      requires Valid()
      ensures r <= |data|
    {
      pos
    }

    /** slurp_peek: fills all `count` bytes, takes `n` of them from the buffer and does not move. */
    method Peek(count: nat) returns (buf: seq<byte>, n: nat)
      requires Valid()
      ensures n <= count && pos + n <= |data|
      ensures n == count || pos + n == |data|
      ensures |buf| == count
      ensures buf[..n] == data[pos..pos + n]
      ensures forall i :: n <= i < count ==> buf[i] == 0
    {
      var bytesleft := |data| - pos;
      n := count;
      var tail: seq<byte> := [];
      if count > bytesleft {
        tail := Zeros(count - bytesleft);
        n := bytesleft;
      }
      buf := data[pos..pos + n] + tail;
    }

    /** slurp_read: a peek that then advances by the number of bytes taken. */
    method Read(count: nat) returns (buf: seq<byte>, n: nat)
      requires Valid()
      modifies this`pos
      ensures Valid()
      ensures n == Available(|data|, old(pos), count) && pos == old(pos) + n
      ensures pos == AfterRead(data, old(pos), count)
      ensures buf == PeekBytes(data, old(pos), count)
    {
      buf, n := Peek(count);
      assert buf == PeekBytes(data, pos, count);
      pos := pos + n;
    }

    /** slurp_getc: the next byte and a step forward, or EOF and no move at the end. */
    method Getc() returns (c: int)
      requires Valid()
      modifies this`pos
      ensures Valid()
      ensures old(pos) < |data| ==> c == data[old(pos)] && pos == old(pos) + 1
      ensures old(pos) == |data| ==> c == EOF && pos == old(pos)
      ensures -1 <= c < 256
      ensures c == GetcAt(data, old(pos)) && pos == AfterRead(data, old(pos), 1)
    {
      if pos < |data| {
        c := data[pos];
        pos := pos + 1;
      } else {
        c := EOF;
      }
    }

    /** slurp_eof: at the end exactly when no byte is left. */
    function Eof(): (r: bool)
      reads this
      requires Valid()
      ensures r <==> pos == |data|
    {
      pos >= |data|
    }
  }
}
