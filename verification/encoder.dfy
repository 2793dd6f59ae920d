/**
 Packing values (src/msgpack/encoder.rs).  Every packer is called twice: without a buffer, to learn
 the size, and with one, to write.  Both calls return the length of the same bytes.
 */
module Encoder {
  import opened Bytes
  import opened Values
  import opened CommandBuffer
  import opened Encoding

  ghost function DataOf(buf: Buffer?): bytes
    reads buf
  {
    if buf == null then [] else buf.data
  }

  ghost function OffsetOf(buf: Buffer?): nat
    reads buf
  {
    if buf == null then 0 else buf.offset
  }

  /** There is space for `n` bytes, if there is a buffer at all. */
  ghost predicate Room(buf: Buffer?, n: nat)
    reads buf
  {
    buf != null ==> buf.offset + n <= |buf.data|
  }

  /** `b` was packed: its length is the `size`, and a buffer, if any, has it at `at`. */
  ghost predicate Packed(buf: Buffer?, d: bytes, at: nat, size: nat, b: bytes)
    reads buf
  {
    size == |b| && (buf != null ==> buf.Holds(d, at, b))
  }

  /** Packing `b` after `a` was packed is packing `a + b`. */
  lemma PackedJoin(buf: Buffer?, d: bytes, at: nat, a: bytes, b: bytes)
    requires buf != null ==> at + |a| <= |d| && buf.Holds(Splice(d, at, a), at + |a|, b)
    ensures Packed(buf, d, at, |a| + |b|, a + b)
  {
    if buf != null {
      SpliceTwice(d, at, a, b);
    }
  }

  lemma PackedNothing(buf: Buffer?)
    requires Room(buf, 0)
    ensures Packed(buf, DataOf(buf), OffsetOf(buf), 0, [])
  {
    if buf != null {
      SpliceNothing(buf.data, buf.offset);
    }
  }

  method PackHalfByte(buf: Buffer?, value: byte) returns (size: nat)
    requires Room(buf, 1)
    modifies buf
    ensures Packed(buf, old(DataOf(buf)), old(OffsetOf(buf)), size, [value])
  {
    if buf != null {
      buf.WriteU8(value);
    }
    size := 1;
  }

  /** A marker byte and a value of `width` bytes: pack_byte, pack_i16, pack_i32, pack_i64. */
  method PackMarked(buf: Buffer?, marker: byte, width: nat, value: nat) returns (size: nat)
    requires Room(buf, 1 + width)
    modifies buf
    ensures Packed(buf, old(DataOf(buf)), old(OffsetOf(buf)), size, [marker] + BigEndian(width, value))
  {
    ghost var d, at := DataOf(buf), OffsetOf(buf);
    if buf != null {
      buf.WriteU8(marker);
      buf.WriteUnsigned(width, value);
    }
    PackedJoin(buf, d, at, [marker], BigEndian(width, value));
    size := 1 + width;
  }

  method PackArrayBegin(buf: Buffer?, length: nat) returns (size: nat)
    requires Room(buf, |ArrayHeader(length)|)
    modifies buf
    ensures Packed(buf, old(DataOf(buf)), old(OffsetOf(buf)), size, ArrayHeader(length))
  {
    if length < 16 {
      size := PackHalfByte(buf, 0x90 + length);
    } else if length < 0x1_0000 {
      size := PackMarked(buf, 0xdc, 2, length);
    } else {
      size := PackMarked(buf, 0xdd, 4, length);
    }
  }

  method PackMapBegin(buf: Buffer?, length: nat) returns (size: nat)
    requires Room(buf, |MapHeader(length)|)
    modifies buf
    ensures Packed(buf, old(DataOf(buf)), old(OffsetOf(buf)), size, MapHeader(length))
  {
    if length < 16 {
      size := PackHalfByte(buf, 0x80 + length);
    } else if length < 0x1_0000 {
      size := PackMarked(buf, 0xde, 2, length);
    } else {
      size := PackMarked(buf, 0xdf, 4, length);
    }
  }

  method PackByteArrayBegin(buf: Buffer?, length: nat) returns (size: nat)
    requires Room(buf, |StrHeader(length)|)
    modifies buf
    ensures Packed(buf, old(DataOf(buf)), old(OffsetOf(buf)), size, StrHeader(length))
  {
    if length < 32 {
      size := PackHalfByte(buf, 0xa0 + length);
    } else if length < 0x1_0000 {
      size := PackMarked(buf, 0xda, 2, length);
    } else {
      size := PackMarked(buf, 0xdb, 4, length);
    }
  }

  /** The program's branch for 128 up to 126 (an 8-bit unsigned form) has no values, so it is not here. */
  method PackInteger(buf: Buffer?, v: i64) returns (size: nat)
    requires Room(buf, |EncInt(v)|)
    modifies buf
    ensures Packed(buf, old(DataOf(buf)), old(OffsetOf(buf)), size, EncInt(v))
  {
    if 0 <= v < 0x80 {
      size := PackHalfByte(buf, v);
    } else if 0x7f <= v < 0x7fff {
      size := PackMarked(buf, 0xcd, 2, v);
    } else if 0x7fff <= v < 0x7fff_ffff {
      size := PackMarked(buf, 0xce, 4, v);
    } else if 0x7fff_ffff <= v {
      size := PackMarked(buf, 0xd3, 8, v);
    } else if -32 <= v {
      var low := (v % 0x100 + 32) % 0x100;
      size := PackHalfByte(buf, 0xe0 + low);
    } else if -0x80 <= v {
      assert BigEndian(1, v % 0x100) == [v % 0x100];
      size := PackMarked(buf, 0xd0, 1, v % 0x100);
    } else if -0x8000 <= v {
      size := PackMarked(buf, 0xd1, 2, v % 0x1_0000);
    } else if -0x8000_0000 <= v {
      size := PackMarked(buf, 0xd2, 4, v % 0x1_0000_0000);
    } else {
      size := PackMarked(buf, 0xd3, 8, v % 0x1_0000_0000_0000_0000);
    }
  }

  method PackU64(buf: Buffer?, u: u64) returns (size: nat)
    requires Room(buf, |EncUInt(u)|)
    modifies buf
    ensures Packed(buf, old(DataOf(buf)), old(OffsetOf(buf)), size, EncUInt(u))
  {
    if u <= 0x7fff_ffff_ffff_ffff {
      size := PackInteger(buf, u);
      return;
    }
    size := PackMarked(buf, 0xcf, 8, u);
  }

  /** pack_string, pack_blob and pack_geo_json, which differ in the particle type. */
  method PackText(buf: Buffer?, particle: byte, s: bytes) returns (size: nat)
    requires Room(buf, |EncText(particle, s)|)
    modifies buf
    ensures Packed(buf, old(DataOf(buf)), old(OffsetOf(buf)), size, EncText(particle, s))
  {
    ghost var d, at := DataOf(buf), OffsetOf(buf);
    size := |s| + 1;
    var n := PackByteArrayBegin(buf, size);
    size := size + n;
    ghost var h := StrHeader(|s| + 1);
    if buf != null {
      buf.WriteU8(particle);
    }
    PackedJoin(buf, d, at, h, [particle]);
    if buf != null {
      buf.WriteBytes(s);
    }
    PackedJoin(buf, d, at, h + [particle], s);
  }

  method PackRawString(buf: Buffer?, s: bytes) returns (size: nat)
    requires Room(buf, |EncRawString(s)|)
    modifies buf
    ensures Packed(buf, old(DataOf(buf)), old(OffsetOf(buf)), size, EncRawString(s))
  {
    ghost var d, at := DataOf(buf), OffsetOf(buf);
    size := |s|;
    var n := PackByteArrayBegin(buf, size);
    size := size + n;
    if buf != null {
      buf.WriteBytes(s);
    }
    PackedJoin(buf, d, at, StrHeader(|s|), s);
  }

  method PackScalar(buf: Buffer?, a: Scalar) returns (size: nat)
    requires Room(buf, |EncScalar(a)|)
    modifies buf
    ensures Packed(buf, old(DataOf(buf)), old(OffsetOf(buf)), size, EncScalar(a))
  {
    match a
    case Nil => size := PackHalfByte(buf, 0xc0);
    case Bool(b) => size := PackHalfByte(buf, if b then 0xc3 else 0xc2);
    case Int(i) => size := PackInteger(buf, i);
    case UInt(u) => size := PackU64(buf, u);
    case F32(bits) => size := PackMarked(buf, 0xca, 4, bits);
    case F64(bits) => size := PackMarked(buf, 0xcb, 8, bits);
    case Str(s) => size := PackText(buf, PARTICLE_STRING, s);
    case Blob(b) => size := PackText(buf, PARTICLE_BLOB, b);
    case GeoJSON(s) => size := PackText(buf, PARTICLE_GEOJSON, s);
    case HLL(b) => size := PackText(buf, PARTICLE_BLOB, b);
  }

  method PackValue(buf: Buffer?, v: Value) returns (size: nat)
    requires Room(buf, |Enc(v)|)
    modifies buf
    ensures Packed(buf, old(DataOf(buf)), old(OffsetOf(buf)), size, Enc(v))
    decreases v, 1
  {
    match v
    case Atom(a) => size := PackScalar(buf, a);
    case List(items) => size := PackArray(buf, items);
    case HashMap(entries) => size := PackMap(buf, entries);
  }

  method PackArray(buf: Buffer?, items: seq<Value>) returns (size: nat)
    requires Room(buf, |EncArray(items)|)
    modifies buf
    ensures Packed(buf, old(DataOf(buf)), old(OffsetOf(buf)), size, EncArray(items))
    decreases items, 0
  {
    hide Enc, ArrayHeader, Splice;
    ghost var d, at := DataOf(buf), OffsetOf(buf);
    ghost var h, parts := ArrayHeader(|items|), ItemParts(items);
    size := PackArrayBegin(buf, |items|);
    assert h + Concat(parts[..0]) == h;
    for i := 0 to |items|
      invariant Packed(buf, d, at, size, h + Concat(parts[..i]))
    {
      ConcatStep(parts, i);
      ConcatSplit(parts, i + 1);
      var n := PackValue(buf, items[i]);
      PackedJoin(buf, d, at, h + Concat(parts[..i]), parts[i]);
      Associates(h, Concat(parts[..i]), parts[i]);
      size := size + n;
    }
    assert parts[..|items|] == parts;
  }

  method PackMap(buf: Buffer?, entries: seq<Entry>) returns (size: nat)
    requires Room(buf, |MapHeader(|entries|) + EncEntries(entries)|)
    modifies buf
    ensures Packed(buf, old(DataOf(buf)), old(OffsetOf(buf)), size, MapHeader(|entries|) + EncEntries(entries))
    decreases entries, 0
  {
    hide EncEntry, MapHeader, Splice;
    ghost var d, at := DataOf(buf), OffsetOf(buf);
    ghost var h, parts := MapHeader(|entries|), EntryParts(entries);
    size := PackMapBegin(buf, |entries|);
    assert h + Concat(parts[..0]) == h;
    for i := 0 to |entries|
      invariant Packed(buf, d, at, size, h + Concat(parts[..i]))
    {
      ConcatStep(parts, i);
      ConcatSplit(parts, i + 1);
      assert entries decreases to entries[i];
      var n := PackEntry(buf, entries[i]);
      PackedJoin(buf, d, at, h + Concat(parts[..i]), parts[i]);
      Associates(h, Concat(parts[..i]), parts[i]);
      size := size + n;
    }
    assert parts[..|entries|] == parts;
  }

  method PackEntry(buf: Buffer?, e: Entry) returns (size: nat)
    requires Room(buf, |EncEntry(e)|)
    modifies buf
    ensures Packed(buf, old(DataOf(buf)), old(OffsetOf(buf)), size, EncEntry(e))
    decreases e, 0
  {
    hide Enc, Splice;
    ghost var d, at := DataOf(buf), OffsetOf(buf);
    var n := PackValue(buf, e.key);
    var m := PackValue(buf, e.value);
    PackedJoin(buf, d, at, Enc(e.key), Enc(e.value));
    size := n + m;
  }
}
