/**
 The command buffer (src/commands/buffer.rs): a byte vector and an offset that every read and every
 write advances.  A write out of bounds panics in the program, so it is a precondition here; a read
 may meet any data a server sent, so reads say when they panic.
 */
module CommandBuffer {
  import opened Bytes
  import opened Values

  /** The result of a read: a value, an error return, or a panic that unwinds the caller. */
  datatype Outcome<+T> = Ok(value: T) | Err | Panic {
    predicate IsFailure() {
      !Ok?
    }

    function PropagateFailure<U>(): Outcome<U>
      requires IsFailure()
    {
      if Err? then Err else Panic
    }

    function Extract(): T
      requires Ok?
    {
      value
    }
  }

  const MSG_TOTAL_HEADER_SIZE := 30
  const MAX_BUFFER_SIZE := 1024 * 1024 + 8

  /** Vec::resize: cut off, or filled up with zeros. */
  function Resized(d: bytes, size: nat): (r: bytes)
    ensures |r| == size
  {
    if size <= |d| then d[..size] else d + seq(size - |d|, _ => 0)
  }

  /** What the readers find at an offset. */
  function UnsignedAt(d: bytes, at: nat, width: nat): Outcome<nat>
  {
    if at + width <= |d| then Ok(FromBigEndian(d[at..at + width])) else Panic
  }

  function TextAt(d: bytes, at: nat, len: nat): Outcome<Utf8>
  {
    if at + len > |d| then Panic
    else if ValidUtf8(d[at..at + len]) then Ok(d[at..at + len])
    else Err
  }

  lemma SpliceIsThere(d: bytes, at: nat, b: bytes)
    requires at + |b| <= |d|
    ensures Splice(d, at, b)[at..at + |b|] == b
  {
  }

  /** A number that was written is read back exactly if it fits the width, and then from the bytes it was written to. */
  lemma UnsignedReadsBack(d: bytes, at: nat, width: nat, v: nat)
    requires at + width <= |d|
    ensures UnsignedAt(Splice(d, at, BigEndian(width, v)), at, width) == Ok(v) <==> v < Pow256(width)
  {
    hide Splice, BigEndian, FromBigEndian, Pow256;
    SpliceIsThere(d, at, BigEndian(width, v));
    FromBigEndianRoundTrip(BigEndian(width, v));
    if v < Pow256(width) {
      BigEndianRoundTrip(width, v);
    }
  }

  /** Bytes that were written are read back as text exactly if they are valid UTF-8, and are an error otherwise. */
  lemma TextReadsBack(d: bytes, at: nat, b: bytes)
    requires at + |b| <= |d|
    ensures TextAt(Splice(d, at, b), at, |b|) == (if ValidUtf8(b) then Ok(b) else Err)
  {
    hide Splice, ValidUtf8;
    SpliceIsThere(d, at, b);
  }

  /** Whatever a buffer held, once it is sized to a message and filled with it, it holds the message and nothing else. */
  lemma SizedThenFilled(d: bytes, message: bytes)
    ensures Splice(Resized(d, |message|), 0, message) == message
  {
    hide Resized;
    var sized := Resized(d, |message|);
    assert sized[..0] + message + sized[|message|..] == message;
  }

  class Buffer {
    var data: bytes
    var offset: nat

    constructor ()
      ensures data == [] && offset == 0
    {
      data, offset := [], 0;
    }

    /** The state after `b` was written at offset `at` of a buffer that held `d`. */
    ghost predicate Holds(d: bytes, at: nat, b: bytes)
      reads this
    {
      at + |b| <= |d| && data == Splice(d, at, b) && offset == at + |b|
    }

    method Begin()
      modifies this`offset
      ensures offset == MSG_TOTAL_HEADER_SIZE
    {
      offset := MSG_TOTAL_HEADER_SIZE;
    }

    method ResizeBuffer(size: nat) returns (r: Outcome<()>)
      modifies this`data
      ensures r == (if size > 1024 * 1024 + 8 then Err else Ok(()))
      ensures data == if size > 1024 * 1024 + 8 then old(data) else Resized(old(data), size)
    {
      if size > MAX_BUFFER_SIZE {
        return Err;
      }
      data := Resized(data, size);
      return Ok(());
    }

    method SizeBuffer() returns (r: Outcome<()>)
      modifies this`data
      ensures r == (if offset > MAX_BUFFER_SIZE then Err else Ok(()))
      ensures data == if offset > MAX_BUFFER_SIZE then old(data) else Resized(old(data), offset)
    {
      r := ResizeBuffer(offset);
    }

    // -------------------------------------------------------------------------------------------
    // Writes

    method WriteU8(v: byte)
      requires offset < |data|
      modifies this
      ensures Holds(old(data), old(offset), [v])
    {
      data := data[offset := v];
      offset := offset + 1;
    }

    /** The writers of 2, 4 and 8 bytes; `v` is cast to the width. */
    method WriteUnsigned(width: nat, v: nat)
      requires offset + width <= |data|
      modifies this
      ensures Holds(old(data), old(offset), BigEndian(width, v))
    {
      data := Splice(data, offset, BigEndian(width, v));
      offset := offset + width;
    }

    method WriteU16(v: nat)
      requires offset + 2 <= |data|
      modifies this
      ensures Holds(old(data), old(offset), BigEndian(2, v))
    {
      WriteUnsigned(2, v);
    }

    method WriteU16LittleEndian(v: u16)
      requires offset + 2 <= |data|
      modifies this
      ensures Holds(old(data), old(offset), LittleEndian16(v))
    {
      data := Splice(data, offset, LittleEndian16(v));
      offset := offset + 2;
    }

    method WriteU32(v: nat)
      requires offset + 4 <= |data|
      modifies this
      ensures Holds(old(data), old(offset), BigEndian(4, v))
    {
      WriteUnsigned(4, v);
    }

    method WriteU64(v: nat)
      requires offset + 8 <= |data|
      modifies this
      ensures Holds(old(data), old(offset), BigEndian(8, v))
    {
      WriteUnsigned(8, v);
    }

    method WriteI64(v: i64)
      requires offset + 8 <= |data|
      modifies this
      ensures Holds(old(data), old(offset), BigEndian(8, v % 0x1_0000_0000_0000_0000))
    {
      WriteU64(v % 0x1_0000_0000_0000_0000);
    }

    method WriteBytes(b: bytes)
      requires offset + |b| <= |data|
      modifies this
      ensures Holds(old(data), old(offset), b)
    {
      ghost var d, at := data, offset;
      SpliceNothing(d, at);
      assert b[..0] == [];
      for i := 0 to |b|
        invariant Holds(d, at, b[..i])
      {
        WriteU8(b[i]);
        SpliceTwice(d, at, b[..i], [b[i]]);
        assert b[..i + 1] == b[..i] + [b[i]];
      }
      assert b[..|b|] == b;
    }

    /** Three zero bytes (flags and a cell count) before the text. */
    method WriteGeo(json: bytes)
      requires offset + 3 + |json| <= |data|
      modifies this
      ensures Holds(old(data), old(offset), [0, 0, 0] + json)
    {
      ghost var d, at := data, offset;
      WriteU8(0);
      WriteU8(0);
      SpliceTwice(d, at, [0], [0]);
      WriteU8(0);
      SpliceTwice(d, at, [0] + [0], [0]);
      assert [0] + [0] + [0] == [0, 0, 0];
      WriteBytes(json);
      SpliceTwice(d, at, [0, 0, 0], json);
    }

    // -------------------------------------------------------------------------------------------
    // Reads

    method Peek() returns (r: Outcome<byte>)
      ensures r == if offset < |data| then Ok(data[offset]) else Panic
    {
      r := if offset < |data| then Ok(data[offset]) else Panic;
    }

    method ReadU8() returns (r: Outcome<byte>)
      modifies this`offset
      ensures r == if old(offset) < |data| then Ok(data[old(offset)]) else Panic
      ensures offset == old(offset) + if r.Ok? then 1 else 0
    {
      if offset >= |data| {
        return Panic;
      }
      r := Ok(data[offset]);
      offset := offset + 1;
    }

    /** The readers of 2, 4 and 8 bytes. */
    method ReadUnsigned(width: nat) returns (r: Outcome<nat>)
      modifies this`offset
      ensures r == UnsignedAt(data, old(offset), width)
      ensures offset == old(offset) + if r.Ok? then width else 0
    {
      if offset + width > |data| {
        return Panic;
      }
      r := Ok(FromBigEndian(data[offset..offset + width]));
      offset := offset + width;
    }

    method ReadBlob(len: nat) returns (r: Outcome<bytes>)
      modifies this`offset
      ensures r == if old(offset) + len <= |data| then Ok(data[old(offset)..old(offset) + len]) else Panic
      ensures offset == old(offset) + if r.Ok? then len else 0
    {
      if offset + len > |data| {
        return Panic;
      }
      r := Ok(data[offset..offset + len]);
      offset := offset + len;
    }

    /** The text is validated before the offset moves. */
    method ReadStr(len: nat) returns (r: Outcome<Utf8>)
      modifies this`offset
      ensures r == TextAt(data, old(offset), len)
      ensures offset == old(offset) + if r.Ok? then len else 0
    {
      if offset + len > |data| {
        return Panic;
      }
      if !ValidUtf8(data[offset..offset + len]) {
        return Err;
      }
      r := Ok(data[offset..offset + len]);
      offset := offset + len;
    }

    method ReadBool(len: nat) returns (r: Outcome<bool>)
      modifies this`offset
      ensures r == if len == 0 then Ok(false)
                   else if old(offset) < |data| then Ok(data[old(offset)] != 0) else Panic
      ensures offset == old(offset) + if r.Ok? then len else 0
    {
      if len == 0 {
        return Ok(false);
      }
      if offset >= |data| {
        return Panic;
      }
      r := Ok(data[offset] != 0);
      offset := offset + len;
    }

    /** Not checked against the end of the data. */
    method Skip(count: nat)
      modifies this`offset
      ensures offset == old(offset) + count
    {
      offset := offset + count;
    }
  }
}
