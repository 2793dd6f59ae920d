/**
 What reading a value from a buffer amounts to, on any bytes a server may have sent: a datum, an
 error return or a panic, and where the offset is left.  Arithmetic is checked, as in a debug build.
 */
module Decoding {
  import opened Bytes
  import opened Values
  import opened CommandBuffer
  import opened Encoding

  datatype Parse<+T> = Done(value: T, next: nat) | Bad(next: nat) | Panics

  /** A read that returned `r` and left the offset at `offset` did what `p` says. */
  predicate Agrees<T(==)>(p: Parse<T>, r: Outcome<T>, offset: nat)
  {
    match p
    case Done(v, next) => r == Ok(v) && offset == next
    case Bad(next) => r == Err && offset == next
    case Panics => r == Panic
  }

  function Left(d: bytes, at: nat): nat
  {
    if at <= |d| then |d| - at else 0
  }

  function Unsigned(d: bytes, at: nat, width: nat): Parse<nat>
  {
    if at + width <= |d| then Done(FromBigEndian(d[at..at + width]), at + width) else Panics
  }

  predicate IsExt(b: byte)
  {
    b in {0xc7, 0xc8, 0xc9, 0xd4, 0xd5, 0xd6, 0xd7, 0xd8}
  }

  /** The codes that ParticleType::from accepts; any other one panics. */
  predicate KnownParticle(b: byte)
  {
    b in {0, 1, 2, 3, 4, 6, 17, 18, 19, 20, 21, 23}
  }

  /** unpack_blob: a particle type byte and `count - 1` bytes of content. */
  function DecText(d: bytes, at: nat, count: nat): (r: Parse<Datum>)
    ensures !r.Panics? ==> r.next > at
  {
    if at >= |d| || count == 0 || !KnownParticle(d[at]) then Panics
    else if d[at] == PARTICLE_BLOB then
      if at + count > |d| then Panics else Done(DAtom(Blob(d[at + 1..at + count])), at + count)
    else if d[at] == PARTICLE_STRING || d[at] == PARTICLE_GEOJSON then
      if at + count > |d| then Panics
      else
        var s := d[at + 1..at + count];
        if !ValidUtf8(s) then Bad(at + 1)
        else Done(DAtom(if d[at] == PARTICLE_STRING then Str(s) else GeoJSON(s)), at + count)
    else Bad(at + 1)
  }

  function DecSizedText(d: bytes, at: nat, width: nat): (r: Parse<Datum>)
    ensures !r.Panics? ==> r.next > at
  {
    match Unsigned(d, at, width)
    case Done(n, next) => DecText(d, next, n)
    case _ => Panics
  }

  /** An ext object with a length of `width` bytes: one more than the length is skipped, unchecked. */
  function DecSizedExt(d: bytes, at: nat, width: nat): (r: Parse<Datum>)
    ensures !r.Panics? ==> r.next > at
  {
    match Unsigned(d, at, width)
    case Done(n, next) => if n + 1 < Pow256(width) then Done(DAtom(Nil), next + 1 + n) else Panics
    case _ => Panics
  }

  /** An integer of `width` bytes, two's complement if `signed`. */
  function DecInt(d: bytes, at: nat, width: nat, signed: bool): (r: Parse<Datum>)
    requires width in {1, 2, 4, 8} && (width == 8 ==> signed)
    ensures !r.Panics? ==> r.next > at
  {
    if at + width > |d| then Panics
    else
      FromBigEndianRoundTrip(d[at..at + width]);
      WidthBounds();
      var v := FromBigEndian(d[at..at + width]);
      Done(DAtom(Int(if signed then ToSigned(v, Pow256(width)) else v)), at + width)
  }

  /** The multi-byte numbers other than ints: u64, which stays unsigned, and the floats. */
  function DecWide(d: bytes, at: nat, marker: byte): (r: Parse<Datum>)
    requires marker in {0xca, 0xcb, 0xcf}
    ensures !r.Panics? ==> r.next > at
  {
    var width := if marker == 0xca then 4 else 8;
    if at + width > |d| then Panics
    else
      FromBigEndianRoundTrip(d[at..at + width]);
      WidthBounds();
      var v := FromBigEndian(d[at..at + width]);
      var a := if marker == 0xca then F32(Canonical32(v)) else if marker == 0xcb then F64(Canonical64(v)) else UInt(v);
      Done(DAtom(a), at + width)
  }

  function DecValue(d: bytes, at: nat): (r: Parse<Datum>)
    ensures !r.Panics? ==> r.next > at
    decreases Left(d, at), 0
  {
    if at >= |d| then Panics
    else
      var t: int, p := d[at], at + 1;
      if t <= 0x7f then Done(DAtom(Int(t)), p)
      else if t <= 0x8f then DecMap(d, p, t - 0x80)
      else if t <= 0x9f then DecList(d, p, t - 0x90)
      else if t <= 0xbf then DecText(d, p, t - 0xa0)
      else if t == 0xc0 then Done(DAtom(Nil), p)
      else if t == 0xc1 then Bad(p)
      else if t == 0xc2 || t == 0xc3 then Done(DAtom(Bool(t == 0xc3)), p)
      else if t == 0xc4 || t == 0xd9 then DecSizedText(d, p, 1)
      else if t == 0xc5 || t == 0xda then DecSizedText(d, p, 2)
      else if t == 0xc6 || t == 0xdb then DecSizedText(d, p, 4)
      else if t == 0xc7 then DecSizedExt(d, p, 1)
      else if t == 0xc8 then DecSizedExt(d, p, 2)
      else if t == 0xc9 then DecSizedExt(d, p, 4)
      else if t == 0xca || t == 0xcb || t == 0xcf then DecWide(d, p, t)
      else if t == 0xcc then DecInt(d, p, 1, false)
      else if t == 0xcd then DecInt(d, p, 2, false)
      else if t == 0xce then DecInt(d, p, 4, false)
      else if t == 0xd0 then DecInt(d, p, 1, true)
      else if t == 0xd1 then DecInt(d, p, 2, true)
      else if t == 0xd2 then DecInt(d, p, 4, true)
      else if t == 0xd3 then DecInt(d, p, 8, true)
      else if t == 0xd4 then Done(DAtom(Nil), p + 1 + 1)
      else if t == 0xd5 then Done(DAtom(Nil), p + 1 + 2)
      else if t == 0xd6 then Done(DAtom(Nil), p + 1 + 4)
      else if t == 0xd7 then Done(DAtom(Nil), p + 1 + 8)
      else if t == 0xd8 then Done(DAtom(Nil), p + 1 + 16)
      else if t == 0xdc || t == 0xdd then
        match Unsigned(d, p, if t == 0xdc then 2 else 4)
        case Done(n, next) => DecList(d, next, n)
        case _ => Panics
      else if t == 0xde || t == 0xdf then
        match Unsigned(d, p, if t == 0xde then 2 else 4)
        case Done(n, next) => DecMap(d, next, n)
        case _ => Panics
      else Done(DAtom(Int(t - 0xe0 - 32)), p)
  }

  /** An ext object in front of the items is skipped, whatever reading it returned. */
  function DecList(d: bytes, at: nat, count: nat): (r: Parse<Datum>)
    ensures !r.Panics? ==> r.next >= at
    decreases Left(d, at), 2
  {
    if count == 0 then Done(DList([]), at)
    else if at >= |d| then Panics
    else if !IsExt(d[at]) then AsList(DecItems(d, at, count))
    else
      match DecValue(d, at)
      case Done(_, next) => AsList(DecItems(d, next, count - 1))
      case Bad(next) => AsList(DecItems(d, next, count - 1))
      case Panics => Panics
  }

  function AsList(p: Parse<seq<Datum>>): Parse<Datum>
  {
    match p
    case Done(items, next) => Done(DList(items), next)
    case Bad(next) => Bad(next)
    case Panics => Panics
  }

  function DecItems(d: bytes, at: nat, count: nat): (r: Parse<seq<Datum>>)
    ensures !r.Panics? ==> r.next >= at
    decreases Left(d, at), 1
  {
    if count == 0 then Done([], at)
    else
      match DecValue(d, at)
      case Done(v, next) => Prepend(v, DecItems(d, next, count - 1))
      case Bad(next) => Bad(next)
      case Panics => Panics
  }

  function Prepend<T>(v: T, p: Parse<seq<T>>): Parse<seq<T>>
  {
    match p
    case Done(vs, next) => Done([v] + vs, next)
    case Bad(next) => Bad(next)
    case Panics => Panics
  }

  function DecMap(d: bytes, at: nat, count: nat): (r: Parse<Datum>)
    ensures !r.Panics? ==> r.next >= at
    decreases Left(d, at), 2
  {
    if count == 0 then Done(DMap(map[]), at)
    else if at >= |d| then Panics
    else if !IsExt(d[at]) then AsMap(DecEntries(d, at, count, map[]))
    else
      match DecValue(d, at)
      case Panics => Panics
      case k =>
        match DecValue(d, k.next)
        case Panics => Panics
        case v => AsMap(DecEntries(d, v.next, count - 1, map[]))
  }

  function AsMap(p: Parse<map<Datum, Datum>>): Parse<Datum>
  {
    match p
    case Done(m, next) => Done(DMap(m), next)
    case Bad(next) => Bad(next)
    case Panics => Panics
  }

  /** Inserting a key that holds a map panics, because such a key cannot be hashed. */
  function DecEntries(d: bytes, at: nat, count: nat, m: map<Datum, Datum>): (r: Parse<map<Datum, Datum>>)
    ensures !r.Panics? ==> r.next >= at
    decreases Left(d, at), 1
  {
    if count == 0 then Done(m, at)
    else
      match DecValue(d, at)
      case Bad(next) => Bad(next)
      case Panics => Panics
      case Done(k, afterKey) =>
        match DecValue(d, afterKey)
        case Bad(next) => Bad(next)
        case Panics => Panics
        case Done(v, next) => if HoldsMap(k) then Panics else DecEntries(d, next, count - 1, m[k := v])
  }
}
