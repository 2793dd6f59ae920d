/**
 The byte form of values: the "Formats" of the MessagePack specification for int, float, str, array
 and map, with a particle type byte in front of the content of every str.
 */
module Encoding {
  import opened Bytes
  import opened Values

  const PARTICLE_NULL: byte := 0
  const PARTICLE_INTEGER: byte := 1
  const PARTICLE_FLOAT: byte := 2
  const PARTICLE_STRING: byte := 3
  const PARTICLE_BLOB: byte := 4
  const PARTICLE_DIGEST: byte := 6
  const PARTICLE_BOOL: byte := 17
  const PARTICLE_HLL: byte := 18
  const PARTICLE_MAP: byte := 19
  const PARTICLE_LIST: byte := 20
  const PARTICLE_LDT: byte := 21
  const PARTICLE_GEOJSON: byte := 23

  function ArrayHeader(n: nat): (h: bytes)
    ensures h != []
  {
    if n < 16 then [0x90 + n]
    else if n < 0x1_0000 then [0xdc] + BigEndian(2, n)
    else [0xdd] + BigEndian(4, n)
  }

  function MapHeader(n: nat): (h: bytes)
    ensures h != []
  {
    if n < 16 then [0x80 + n]
    else if n < 0x1_0000 then [0xde] + BigEndian(2, n)
    else [0xdf] + BigEndian(4, n)
  }

  function StrHeader(n: nat): (h: bytes)
    ensures h != []
  {
    if n < 32 then [0xa0 + n]
    else if n < 0x1_0000 then [0xda] + BigEndian(2, n)
    else [0xdb] + BigEndian(4, n)
  }

  /** The encoder's thresholds are its own: each is one below the largest value of the width. */
  function EncInt(v: i64): (e: bytes)
    ensures e != []
  {
    if 0 <= v < 0x80 then [v]
    else if 0 <= v < 0x7fff then [0xcd] + BigEndian(2, v)
    else if 0 <= v < 0x7fff_ffff then [0xce] + BigEndian(4, v)
    else if 0 <= v then [0xd3] + BigEndian(8, v)
    else if v >= -32 then [0xe0 + (v + 32)]
    else if v >= -0x80 then [0xd0, v % 0x100]
    else if v >= -0x8000 then [0xd1] + BigEndian(2, v % 0x1_0000)
    else if v >= -0x8000_0000 then [0xd2] + BigEndian(4, v % 0x1_0000_0000)
    else [0xd3] + BigEndian(8, v % 0x1_0000_0000_0000_0000)
  }

  function EncUInt(u: u64): (e: bytes)
    ensures e != []
  {
    if u < 0x8000_0000_0000_0000 then EncInt(u) else [0xcf] + BigEndian(8, u)
  }

  function EncText(particle: byte, s: bytes): bytes
  {
    StrHeader(|s| + 1) + [particle] + s
  }

  /** A str without the particle type byte, as expressions use it for names. */
  function EncRawString(s: bytes): bytes
  {
    StrHeader(|s|) + s
  }

  function EncScalar(a: Scalar): (e: bytes)
    ensures e != []
  {
    match a
    case Nil => [0xc0]
    case Bool(b) => [if b then 0xc3 else 0xc2]
    case Int(i) => EncInt(i)
    case UInt(u) => EncUInt(u)
    case F32(bits) => [0xca] + BigEndian(4, bits)
    case F64(bits) => [0xcb] + BigEndian(8, bits)
    case Str(s) => EncText(PARTICLE_STRING, s)
    case Blob(b) => EncText(PARTICLE_BLOB, b)
    case GeoJSON(s) => EncText(PARTICLE_GEOJSON, s)
    case HLL(b) => EncText(PARTICLE_BLOB, b)
  }

  function Enc(v: Value): (e: bytes)
    ensures e != []
  {
    match v
    case Atom(a) => EncScalar(a)
    case List(items) => EncArray(items)
    case HashMap(entries) => MapHeader(|entries|) + EncEntries(entries)
  }

  function EncArray(items: seq<Value>): (e: bytes)
    ensures e != []
    decreases items, 2
  {
    ArrayHeader(|items|) + EncItems(items)
  }

  function EncItems(items: seq<Value>): bytes
    decreases items, 1
  {
    Concat(ItemParts(items))
  }

  function ItemParts(items: seq<Value>): (parts: seq<bytes>)
    ensures |parts| == |items|
    decreases items, 0
  {
    seq(|items|, i requires 0 <= i < |items| => Enc(items[i]))
  }

  function EncEntries(entries: seq<Entry>): bytes
    decreases entries, 1
  {
    Concat(EntryParts(entries))
  }

  function EntryParts(entries: seq<Entry>): (parts: seq<bytes>)
    ensures |parts| == |entries|
    decreases entries, 0
  {
    seq(|entries|, i requires 0 <= i < |entries| =>
      assert entries decreases to entries[i];
      EncEntry(entries[i]))
  }

  function EncEntry(e: Entry): bytes
  {
    Enc(e.key) + Enc(e.value)
  }

  /** Every length and count fits the widest header there is for it. */
  predicate Fits(v: Value)
  {
    match v
    case Atom(a) => FitsScalar(a)
    case List(items) => FitsItems(items)
    case HashMap(entries) =>
      && |entries| < 0x1_0000_0000
      && forall i :: 0 <= i < |entries| ==> Fits(entries[i].key) && Fits(entries[i].value)
  }

  predicate FitsItems(items: seq<Value>)
    decreases items
  {
    |items| < 0x1_0000_0000 && forall i :: 0 <= i < |items| ==> Fits(items[i])
  }

  predicate FitsScalar(a: Scalar)
  {
    match a
    case Str(s) => |s| < 0xffff_ffff
    case Blob(b) => |b| < 0xffff_ffff
    case GeoJSON(s) => |s| < 0xffff_ffff
    case HLL(b) => |b| < 0xffff_ffff
    case _ => true
  }
}
