/**
 Bin values as particles (src/value.rs): a type code, and bytes whose number is estimated before they
 are written.  Scalars have formats of their own here; lists and maps are packed.
 */
module Particles {
  import opened Bytes
  import opened Values
  import opened CommandBuffer
  import opened Encoding
  import opened Encoder
  import opened Decoding
  import opened Decoder
  import opened RoundTrip

  /** The values that particle_type, estimate_size and write_to accept without a panic. */
  predicate Storable(v: Value)
  {
    v.Atom? ==> !v.a.UInt? && !v.a.F32?
  }

  function ParticleType(v: Value): byte
    requires Storable(v)
  {
    match v
    case List(_) => PARTICLE_LIST
    case HashMap(_) => PARTICLE_MAP
    case Atom(a) =>
      match a
      case Nil => PARTICLE_NULL
      case Int(_) => PARTICLE_INTEGER
      case F64(_) => PARTICLE_FLOAT
      case Str(_) => PARTICLE_STRING
      case Blob(_) => PARTICLE_BLOB
      case Bool(_) => PARTICLE_BOOL
      case GeoJSON(_) => PARTICLE_GEOJSON
      case HLL(_) => PARTICLE_HLL
  }

  function ParticleBytes(v: Value): bytes
    requires Storable(v)
  {
    match v
    case List(_) => Enc(v)
    case HashMap(_) => Enc(v)
    case Atom(a) =>
      match a
      case Nil => []
      case Int(i) => BigEndian(8, i % 0x1_0000_0000_0000_0000)
      case F64(bits) => BigEndian(8, bits)
      case Str(s) => s
      case Blob(b) => b
      case Bool(b) => [if b then 1 else 0]
      case GeoJSON(s) => [0, 0, 0] + s
      case HLL(b) => b
  }

  method EstimateSize(v: Value) returns (size: nat)
    requires Storable(v)
    ensures size == |ParticleBytes(v)|
  {
    match v
    case List(_) => size := PackValue(null, v);
    case HashMap(_) => size := PackValue(null, v);
    case Atom(a) =>
      match a {
        case Nil => size := 0;
        case Int(_) => size := 8;
        case F64(_) => size := 8;
        case Str(s) => size := |s|;
        case Blob(b) => size := |b|;
        case Bool(_) => size := 1;
        case GeoJSON(s) => size := 1 + 2 + |s|;
        case HLL(b) => size := |b|;
      }
  }

  method WriteTo(v: Value, buf: Buffer)
    requires Storable(v) && Room(buf, |ParticleBytes(v)|)
    modifies buf
    ensures buf.Holds(old(buf.data), old(buf.offset), ParticleBytes(v))
  {
    match v
    case List(_) => var _ := PackValue(buf, v);
    case HashMap(_) => var _ := PackValue(buf, v);
    case Atom(a) =>
      match a {
        case Nil => SpliceNothing(buf.data, buf.offset);
        case Int(i) => buf.WriteI64(i);
        case F64(bits) => buf.WriteU64(bits);
        case Str(s) => buf.WriteBytes(s);
        case Blob(b) => buf.WriteBytes(b);
        case Bool(b) => buf.WriteU8(if b then 1 else 0);
        case GeoJSON(s) => buf.WriteGeo(s);
        case HLL(b) => buf.WriteBytes(b);
      }
  }

  function Ascii(s: string): Utf8
    requires forall i :: 0 <= i < |s| ==> s[i] < 128 as char
  {
    if s == "" then []
    else
      var rest := Ascii(s[1..]);
      assert ([s[0] as int] + rest)[1..] == rest;
      [s[0] as int] + rest
  }

  function DecGeo(d: bytes, at: nat, len: nat): Parse<Datum>
  {
    match Unsigned(d, at + 1, 2)
    case Done(ncells, next) =>
      var header := 8 * ncells;
      if ncells >= 0x8000 || len < header + 3 then Panics  // a negative count does not fit, nor does a short length
      else if at + len > |d| then Panics
      else
        var s := d[at + header + 3..at + len];
        if ValidUtf8(s) then Done(DAtom(GeoJSON(s)), at + len) else Bad(at + header + 3)
    case _ => Panics
  }

  predicate ListMarker(b: byte)
  {
    0x90 <= b <= 0x9f || b == 0xdc || b == 0xdd
  }

  predicate MapMarker(b: byte)
  {
    0x80 <= b <= 0x8f || b == 0xde || b == 0xdf
  }

  /** Reading `len` bytes at `at` as a particle of type `ptype`. */
  function DecParticle(d: bytes, at: nat, ptype: byte, len: nat): Parse<Datum>
  {
    if ptype == PARTICLE_NULL then Done(DAtom(Nil), at)
    else if ptype == PARTICLE_INTEGER then DecInt(d, at, 8, true)
    else if ptype == PARTICLE_FLOAT then DecWide(d, at, 0xcb)
    else if ptype == PARTICLE_STRING then
      if at + len > |d| then Panics
      else if ValidUtf8(d[at..at + len]) then Done(DAtom(Str(d[at..at + len])), at + len) else Bad(at)
    else if ptype == PARTICLE_GEOJSON then DecGeo(d, at, len)
    else if ptype == PARTICLE_BLOB || ptype == PARTICLE_HLL then
      if at + len > |d| then Panics
      else Done(DAtom(if ptype == PARTICLE_BLOB then Blob(d[at..at + len]) else HLL(d[at..at + len])), at + len)
    else if ptype == PARTICLE_LIST then
      if d == [] then Done(DList([]), at)
      else if at < |d| && ListMarker(d[at]) then DecValue(d, at) else Panics
    else if ptype == PARTICLE_MAP then
      if d == [] then Done(DMap(map[]), at)
      else if at < |d| && MapMarker(d[at]) then DecValue(d, at) else Panics
    else if ptype == PARTICLE_DIGEST then Done(DAtom(Str(Ascii("A DIGEST, NOT IMPLEMENTED YET!"))), at)
    else if ptype == PARTICLE_LDT then Done(DAtom(Str(Ascii("A LDT, NOT IMPLEMENTED YET!"))), at)
    else if ptype == PARTICLE_BOOL then
      if len == 0 then Done(DAtom(Bool(false)), at)
      else if at < |d| then Done(DAtom(Bool(d[at] != 0)), at + len) else Panics
    else Panics
  }

  method UnpackValueList(buf: Buffer) returns (r: Outcome<Datum>)
    modifies buf`offset
    ensures Agrees(DecParticle(buf.data, old(buf.offset), PARTICLE_LIST, 0), r, buf.offset)
  {
    hide DecList, DecMap, DecText, Ascii;
    if buf.data == [] {
      return Ok(DList([]));
    }
    var ltype :- buf.ReadU8();
    var count;
    if 0x90 <= ltype <= 0x9f {
      count := ltype - 0x90;
    } else if ltype == 0xdc {
      count :- buf.ReadUnsigned(2);
    } else if ltype == 0xdd {
      count :- buf.ReadUnsigned(4);
    } else {
      return Panic;  // unreachable!()
    }
    r := UnpackList(buf, count);
  }

  method UnpackValueMap(buf: Buffer) returns (r: Outcome<Datum>)
    modifies buf`offset
    ensures Agrees(DecParticle(buf.data, old(buf.offset), PARTICLE_MAP, 0), r, buf.offset)
  {
    hide DecList, DecMap, DecText, Ascii;
    if buf.data == [] {
      return Ok(DMap(map[]));
    }
    var ltype :- buf.ReadU8();
    var count;
    if 0x80 <= ltype <= 0x8f {
      count := ltype - 0x80;
    } else if ltype == 0xde {
      count :- buf.ReadUnsigned(2);
    } else if ltype == 0xdf {
      count :- buf.ReadUnsigned(4);
    } else {
      return Panic;  // unreachable!()
    }
    r := UnpackMap(buf, count);
  }

  method ReadGeo(buf: Buffer, len: nat) returns (r: Outcome<Datum>)
    modifies buf`offset
    ensures Agrees(DecGeo(buf.data, old(buf.offset), len), r, buf.offset)
  {
    hide FromBigEndian, BigEndian, Pow256, ValidUtf8;
    ghost var at := buf.offset;
    buf.Skip(1);
    var ncells :- buf.ReadUnsigned(2);
    FromBigEndianRoundTrip(buf.data[at + 1..at + 3]);
    WidthBounds();
    if ToSigned(ncells, 0x1_0000) < 0 {
      return Panic;  // the header size overflows
    }
    var headerSize := ncells * 8;
    buf.Skip(headerSize);
    if len < headerSize + 3 {
      return Panic;  // len - header_size - 3 underflows
    }
    var s :- buf.ReadStr(len - headerSize - 3);
    return Ok(DAtom(GeoJSON(s)));
  }

  method BytesToParticle(ptype: byte, buf: Buffer, len: nat) returns (r: Outcome<Datum>)
    modifies buf`offset
    ensures Agrees(DecParticle(buf.data, old(buf.offset), ptype, len), r, buf.offset)
  {
    hide DecValue, DecGeo, DecInt, DecWide, Ascii;
    if ptype == PARTICLE_NULL {
      return Ok(DAtom(Nil));
    } else if ptype == PARTICLE_INTEGER {
      r := UnpackInt(buf, 8, true);
    } else if ptype == PARTICLE_FLOAT {
      r := UnpackWide(buf, 0xcb);
    } else if ptype == PARTICLE_STRING {
      var s :- buf.ReadStr(len);
      return Ok(DAtom(Str(s)));
    } else if ptype == PARTICLE_GEOJSON {
      r := ReadGeo(buf, len);
    } else if ptype == PARTICLE_BLOB {
      var b :- buf.ReadBlob(len);
      return Ok(DAtom(Blob(b)));
    } else if ptype == PARTICLE_LIST {
      r := UnpackValueList(buf);
    } else if ptype == PARTICLE_MAP {
      r := UnpackValueMap(buf);
    } else if ptype == PARTICLE_DIGEST {
      return Ok(DAtom(Str(Ascii("A DIGEST, NOT IMPLEMENTED YET!"))));
    } else if ptype == PARTICLE_LDT {
      return Ok(DAtom(Str(Ascii("A LDT, NOT IMPLEMENTED YET!"))));
    } else if ptype == PARTICLE_HLL {
      var b :- buf.ReadBlob(len);
      return Ok(DAtom(HLL(b)));
    } else if ptype == PARTICLE_BOOL {
      var b :- buf.ReadBool(len);
      return Ok(DAtom(Bool(b)));
    } else {
      return Panic;  // ParticleType::from
    }
  }

  /** At the top of a bin only the bits of a NaN change; inside a list or a map the wire rules apply. */
  function ParticleReadBack(v: Value): Datum
    requires Storable(v)
  {
    match v
    case Atom(a) => DAtom(if a.F64? then F64(Canonical64(a.bits64)) else a)
    case _ => ReadBack(v)
  }

  predicate NormalParticle(v: Value)
    requires Storable(v)
  {
    match v
    case Atom(a) => a.F64? ==> NormalScalar(a)
    case _ => NormalForm(v)
  }

  lemma PackedMarkers(v: Value, d: bytes, at: nat)
    requires !v.Atom? && At(d, at, Enc(v))
    ensures at < |d|
    ensures v.List? ==> ListMarker(d[at])
    ensures v.HashMap? ==> MapMarker(d[at])
  {
    hide EncItems, EncEntries;
    assert d[at] == d[at..at + |Enc(v)|][0] == Enc(v)[0];
    match v
    case List(items) => assert Enc(v)[0] == ArrayHeader(|items|)[0];
    case HashMap(entries) => assert Enc(v)[0] == MapHeader(|entries|)[0];
  }

  lemma GeoRoundTrip(s: Utf8, d: bytes, at: nat)
    requires At(d, at, [0, 0, 0] + s)
    ensures DecGeo(d, at, 3 + |s|) == Done(DAtom(GeoJSON(s)), at + 3 + |s|)
  {
    hide ValidUtf8;
    AtSplit(d, at, [0, 0, 0], s);
    assert d[at..at + 3] == [0, 0, 0];
    assert d[at + 1] == d[at..at + 3][1] && d[at + 2] == d[at..at + 3][2];
    assert d[at + 1..at + 3] == [0, 0];
    assert [0, 0][..1] == [0] && FromBigEndian([0]) == 0;
    assert FromBigEndian([0, 0]) == 0;
  }

  /**
   The bytes that were written for a bin value, as many as were estimated, read back as that value
   and are all consumed.
   */
  lemma ParticleRoundTrip(v: Value, d: bytes, at: nat)
    requires Storable(v) && Hashable(v) && Fits(v) && At(d, at, ParticleBytes(v))
    ensures DecParticle(d, at, ParticleType(v), |ParticleBytes(v)|)
         == Done(ParticleReadBack(v), at + |ParticleBytes(v)|)
  {
    hide DecValue, BigEndian, FromBigEndian, DecGeo, Enc, Ascii, Pow256;
    match v
    case List(_) =>
      PackedMarkers(v, d, at);
      ValueRoundTrip(v, d, at);
    case HashMap(_) =>
      PackedMarkers(v, d, at);
      ValueRoundTrip(v, d, at);
    case Atom(a) =>
      WidthBounds();
      match a {
        case Int(i) => BigEndianRoundTrip(8, i % 0x1_0000_0000_0000_0000);
        case F64(bits) => BigEndianRoundTrip(8, bits);
        case GeoJSON(s) => GeoRoundTrip(s, d, at);
        case Bool(b) => ByteAt(d, at, if b then 1 else 0);
        case _ =>
      }
  }

  /** A bin value is read back with the meaning it was written with exactly if it is normal. */
  lemma NormalParticleRoundTrip(v: Value, prefix: bytes, suffix: bytes)
    requires Storable(v) && Valid(v) && Fits(v)
    ensures var b := ParticleBytes(v);
            DecParticle(prefix + b + suffix, |prefix|, ParticleType(v), |b|)
            == Done(Meaning(v), |prefix| + |b|)
            <==> NormalParticle(v)
  {
    hide DecParticle, ParticleBytes, ParticleType;
    var b := ParticleBytes(v);
    var d := prefix + b + suffix;
    assert d[|prefix|..|prefix| + |b|] == b;
    ValidIsHashable(v);
    ParticleRoundTrip(v, d, |prefix|);
    ReadBackIsExact(v);
  }
}
