/**
 Unpacking values (src/msgpack/decoder.rs): every read advances the offset of the buffer, loops grow
 a list or insert into a map.  Each method does to the buffer what its function in Decoding says.
 */
module Decoder {
  import opened Bytes
  import opened Values
  import opened CommandBuffer
  import opened Encoding
  import opened Decoding

  method UnpackBlob(buf: Buffer, count: nat) returns (r: Outcome<Datum>)
    modifies buf`offset
    ensures Agrees(DecText(buf.data, old(buf.offset), count), r, buf.offset)
  {
    var vtype :- buf.ReadU8();
    if count == 0 {
      return Panic;  // count - 1 underflows
    }
    if !KnownParticle(vtype) {
      return Panic;  // ParticleType::from
    }
    if vtype == PARTICLE_STRING {
      var s :- buf.ReadStr(count - 1);
      return Ok(DAtom(Str(s)));
    } else if vtype == PARTICLE_BLOB {
      var b :- buf.ReadBlob(count - 1);
      return Ok(DAtom(Blob(b)));
    } else if vtype == PARTICLE_GEOJSON {
      var s :- buf.ReadStr(count - 1);
      return Ok(DAtom(GeoJSON(s)));
    }
    return Err;
  }

  method UnpackSizedBlob(buf: Buffer, width: nat) returns (r: Outcome<Datum>)
    modifies buf`offset
    ensures Agrees(DecSizedText(buf.data, old(buf.offset), width), r, buf.offset)
  {
    var count :- buf.ReadUnsigned(width);
    r := UnpackBlob(buf, count);
  }

  method SkipSizedExt(buf: Buffer, width: nat) returns (r: Outcome<Datum>)
    modifies buf`offset
    ensures Agrees(DecSizedExt(buf.data, old(buf.offset), width), r, buf.offset)
  {
    var length :- buf.ReadUnsigned(width);
    if 1 + length >= Pow256(width) {
      return Panic;  // 1 + length overflows the width
    }
    buf.Skip(1 + length);
    return Ok(DAtom(Nil));
  }

  method UnpackInt(buf: Buffer, width: nat, signed: bool) returns (r: Outcome<Datum>)
    requires width in {1, 2, 4, 8} && (width == 8 ==> signed)
    modifies buf`offset
    ensures Agrees(DecInt(buf.data, old(buf.offset), width, signed), r, buf.offset)
  {
    hide BigEndian, FromBigEndian, Pow256;
    ghost var at := buf.offset;
    var v :- buf.ReadUnsigned(width);
    FromBigEndianRoundTrip(buf.data[at..at + width]);
    WidthBounds();
    return Ok(DAtom(Int(if signed then ToSigned(v, Pow256(width)) else v)));
  }

  method UnpackWide(buf: Buffer, marker: byte) returns (r: Outcome<Datum>)
    requires marker in {0xca, 0xcb, 0xcf}
    modifies buf`offset
    ensures Agrees(DecWide(buf.data, old(buf.offset), marker), r, buf.offset)
  {
    hide BigEndian, FromBigEndian, Pow256;
    ghost var at := buf.offset;
    var width := if marker == 0xca then 4 else 8;
    var v :- buf.ReadUnsigned(width);
    FromBigEndianRoundTrip(buf.data[at..at + width]);
    WidthBounds();
    if marker == 0xca {
      return Ok(DAtom(F32(Canonical32(v))));
    } else if marker == 0xcb {
      return Ok(DAtom(F64(Canonical64(v))));
    }
    return Ok(DAtom(UInt(v)));
  }

  method UnpackValue(buf: Buffer) returns (r: Outcome<Datum>)
    modifies buf`offset
    ensures Agrees(DecValue(buf.data, old(buf.offset)), r, buf.offset)
    decreases Left(buf.data, buf.offset), 0
  {
    hide DecText, DecSizedText, DecSizedExt, DecInt, DecWide, DecList, DecMap;
    var objType: int :- buf.ReadU8();
    if objType <= 0x7f {
      return Ok(DAtom(Int(objType)));
    } else if objType <= 0x8f {
      r := UnpackMap(buf, objType - 0x80);
    } else if objType <= 0x9f {
      r := UnpackList(buf, objType - 0x90);
    } else if objType <= 0xbf {
      r := UnpackBlob(buf, objType - 0xa0);
    } else if objType == 0xc0 {
      return Ok(DAtom(Nil));
    } else if objType == 0xc2 {
      return Ok(DAtom(Bool(false)));
    } else if objType == 0xc3 {
      return Ok(DAtom(Bool(true)));
    } else if objType == 0xc4 || objType == 0xd9 {
      r := UnpackSizedBlob(buf, 1);
    } else if objType == 0xc5 || objType == 0xda {
      r := UnpackSizedBlob(buf, 2);
    } else if objType == 0xc6 || objType == 0xdb {
      r := UnpackSizedBlob(buf, 4);
    } else if objType == 0xc7 {
      r := SkipSizedExt(buf, 1);
    } else if objType == 0xc8 {
      r := SkipSizedExt(buf, 2);
    } else if objType == 0xc9 {
      r := SkipSizedExt(buf, 4);
    } else if objType == 0xca || objType == 0xcb || objType == 0xcf {
      r := UnpackWide(buf, objType);
    } else if objType == 0xcc {
      r := UnpackInt(buf, 1, false);
    } else if objType == 0xcd {
      r := UnpackInt(buf, 2, false);
    } else if objType == 0xce {
      r := UnpackInt(buf, 4, false);
    } else if objType == 0xd0 {
      r := UnpackInt(buf, 1, true);
    } else if objType == 0xd1 {
      r := UnpackInt(buf, 2, true);
    } else if objType == 0xd2 {
      r := UnpackInt(buf, 4, true);
    } else if objType == 0xd3 {
      r := UnpackInt(buf, 8, true);
    } else if objType == 0xd4 {
      buf.Skip(1 + 1);
      return Ok(DAtom(Nil));
    } else if objType == 0xd5 {
      buf.Skip(1 + 2);
      return Ok(DAtom(Nil));
    } else if objType == 0xd6 {
      buf.Skip(1 + 4);
      return Ok(DAtom(Nil));
    } else if objType == 0xd7 {
      buf.Skip(1 + 8);
      return Ok(DAtom(Nil));
    } else if objType == 0xd8 {
      buf.Skip(1 + 16);
      return Ok(DAtom(Nil));
    } else if objType == 0xdc || objType == 0xdd {
      var count :- buf.ReadUnsigned(if objType == 0xdc then 2 else 4);
      r := UnpackList(buf, count);
    } else if objType == 0xde || objType == 0xdf {
      var count :- buf.ReadUnsigned(if objType == 0xde then 2 else 4);
      r := UnpackMap(buf, count);
    } else if objType >= 0xe0 {
      return Ok(DAtom(Int(objType - 0xe0 - 32)));
    } else {
      return Err;
    }
  }

  method UnpackList(buf: Buffer, count: nat) returns (r: Outcome<Datum>)
    modifies buf`offset
    ensures Agrees(DecList(buf.data, old(buf.offset), count), r, buf.offset)
    decreases Left(buf.data, buf.offset), 1
  {
    hide DecValue;
    var left: nat := count;
    if left > 0 {
      var b :- buf.Peek();
      if IsExt(b) {
        var skipped := UnpackValue(buf);
        if skipped.Panic? {
          return Panic;
        }
        left := left - 1;
      }
    }
    ghost var at, todo := buf.offset, left;
    var list: seq<Datum> := [];
    AfterNothing(DecItems(buf.data, at, todo));
    while left > 0
      invariant buf.offset >= at >= old(buf.offset)
      invariant AfterItems(list, DecItems(buf.data, buf.offset, left)) == DecItems(buf.data, at, todo)
    {
      ghost var p := DecValue(buf.data, buf.offset);
      ghost var before := list;
      var val := UnpackValue(buf);
      if !val.Ok? {
        return val;
      }
      list := list + [val.value];
      left := left - 1;
      AfterPrepend(before, p.value, DecItems(buf.data, buf.offset, left));
    }
    assert list + [] == list;
    return Ok(DList(list));
  }

  /** The items read so far in front of what is still to be read. */
  ghost function AfterItems(list: seq<Datum>, rest: Parse<seq<Datum>>): Parse<seq<Datum>>
  {
    match rest
    case Done(vs, next) => Done(list + vs, next)
    case _ => rest
  }

  lemma AfterNothing(rest: Parse<seq<Datum>>)
    ensures AfterItems([], rest) == rest
  {
    if rest.Done? {
      assert [] + rest.value == rest.value;
    }
  }

  lemma AfterPrepend(list: seq<Datum>, v: Datum, rest: Parse<seq<Datum>>)
    ensures AfterItems(list, Prepend(v, rest)) == AfterItems(list + [v], rest)
  {
    if rest.Done? {
      assert list + ([v] + rest.value) == list + [v] + rest.value;
    }
  }

  method UnpackMap(buf: Buffer, count: nat) returns (r: Outcome<Datum>)
    modifies buf`offset
    ensures Agrees(DecMap(buf.data, old(buf.offset), count), r, buf.offset)
    decreases Left(buf.data, buf.offset), 1
  {
    hide DecValue;
    var left: nat := count;
    if left > 0 {
      var b :- buf.Peek();
      if IsExt(b) {
        var skippedKey := UnpackValue(buf);
        if skippedKey.Panic? {
          return Panic;
        }
        var skippedValue := UnpackValue(buf);
        if skippedValue.Panic? {
          return Panic;
        }
        left := left - 1;
      }
    }
    ghost var at, todo := buf.offset, left;
    var m: map<Datum, Datum> := map[];
    while left > 0
      invariant buf.offset >= at >= old(buf.offset)
      invariant DecEntries(buf.data, buf.offset, left, m) == DecEntries(buf.data, at, todo, map[])
    {
      var key := UnpackValue(buf);
      if !key.Ok? {
        return key;
      }
      var val := UnpackValue(buf);
      if !val.Ok? {
        return val;
      }
      if HoldsMap(key.value) {
        return Panic;  // hashing the key
      }
      m := m[key.value := val.value];
      left := left - 1;
    }
    return Ok(DMap(m));
  }
}
