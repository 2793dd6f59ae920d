/**
 A structural reader of MessagePack: it follows the "Formats" section of the specification, knows
 nothing of Aerospike, and only finds where an object ends.  Whatever claims to be one object must
 end where this reader says.
 */
module Skipper {
  import opened Options
  import opened Bytes
  import opened Values
  import opened Encoding
  import opened Decoding
  import opened RoundTrip

  /** The bytes of an object up to `next`, and how many objects it still holds from there. */
  datatype Head = Head(next: nat, children: nat)

  function Fixed(d: bytes, at: nat, n: nat): Option<Head>
  {
    if at + n <= |d| then Some(Head(at + n, 0)) else None
  }

  /** A length of `width` bytes at `at`, then `extra` bytes more than it says. */
  function Sized(d: bytes, at: nat, width: nat, extra: nat): Option<Head>
  {
    if at + width > |d| then None
    else Fixed(d, at + width, FromBigEndian(d[at..at + width]) + extra)
  }

  function Counted(d: bytes, at: nat, width: nat, each: nat): Option<Head>
  {
    if at + width > |d| then None
    else Some(Head(at + width, each * FromBigEndian(d[at..at + width])))
  }

  function HeadOf(d: bytes, at: nat): (h: Option<Head>)
    ensures h.Some? ==> at < h.value.next <= |d|
  {
    if at >= |d| then None
    else
      var t: int, p := d[at], at + 1;
      if t <= 0x7f || t >= 0xe0 then Some(Head(p, 0))
      else if t <= 0x8f then Some(Head(p, 2 * (t - 0x80)))
      else if t <= 0x9f then Some(Head(p, t - 0x90))
      else if t <= 0xbf then Fixed(d, p, t - 0xa0)
      else if t == 0xc0 || t == 0xc2 || t == 0xc3 then Some(Head(p, 0))
      else if t == 0xc4 || t == 0xd9 then Sized(d, p, 1, 0)
      else if t == 0xc5 || t == 0xda then Sized(d, p, 2, 0)
      else if t == 0xc6 || t == 0xdb then Sized(d, p, 4, 0)
      else if t == 0xc7 then Sized(d, p, 1, 1)
      else if t == 0xc8 then Sized(d, p, 2, 1)
      else if t == 0xc9 then Sized(d, p, 4, 1)
      else if t == 0xcc || t == 0xd0 then Fixed(d, p, 1)
      else if t == 0xcd || t == 0xd1 then Fixed(d, p, 2)
      else if t == 0xca || t == 0xce || t == 0xd2 then Fixed(d, p, 4)
      else if t == 0xcb || t == 0xcf || t == 0xd3 then Fixed(d, p, 8)
      else if t == 0xd4 then Fixed(d, p, 2)
      else if t == 0xd5 then Fixed(d, p, 3)
      else if t == 0xd6 then Fixed(d, p, 5)
      else if t == 0xd7 then Fixed(d, p, 9)
      else if t == 0xd8 then Fixed(d, p, 17)
      else if t == 0xdc then Counted(d, p, 2, 1)
      else if t == 0xdd then Counted(d, p, 4, 1)
      else if t == 0xde then Counted(d, p, 2, 2)
      else if t == 0xdf then Counted(d, p, 4, 2)
      else None
  }

  /** Where `n` objects that start at `at` end. */
  function SkipObjects(d: bytes, at: nat, n: nat): Option<nat>
    decreases Left(d, at), n
  {
    if n == 0 then Some(at)
    else
      match HeadOf(d, at)
      case None => None
      case Some(h) => SkipObjects(d, h.next, h.children + (n - 1))
  }

  /** `b` is the beginning of an object that still misses `k` objects. */
  ghost predicate Open(b: bytes, k: nat)
  {
    forall d, at: nat, n: nat {:trigger At(d, at, b), SkipObjects(d, at, n)} ::
      At(d, at, b) && n > 0 ==> SkipObjects(d, at, n) == SkipObjects(d, at + |b|, k + n - 1)
  }

  /** `b` is `m` complete objects. */
  ghost predicate Objects(b: bytes, m: nat)
  {
    forall d, at: nat, n: nat {:trigger At(d, at, b), SkipObjects(d, at, n)} ::
      At(d, at, b) && n >= m ==> SkipObjects(d, at, n) == SkipObjects(d, at + |b|, n - m)
  }

  lemma ObjectsJoin(a: bytes, n: nat, b: bytes, m: nat)
    requires Objects(a, n) && Objects(b, m)
    ensures Objects(a + b, n + m)
  {
    hide At, SkipObjects;
    forall d, at: nat, k: nat | At(d, at, a + b) && k >= n + m
      ensures SkipObjects(d, at, k) == SkipObjects(d, at + |a + b|, k - (n + m))
    {
      AtSplit(d, at, a, b);
      assert SkipObjects(d, at, k) == SkipObjects(d, at + |a|, k - n);
    }
  }

  lemma OpenStep(b: bytes, k: nat, o: bytes, m: nat)
    requires Open(b, k) && Objects(o, m) && m <= k
    ensures Open(b + o, k - m)
  {
    hide At, SkipObjects;
    forall d, at: nat, n: nat | At(d, at, b + o) && n > 0
      ensures SkipObjects(d, at, n) == SkipObjects(d, at + |b + o|, k - m + n - 1)
    {
      AtSplit(d, at, b, o);
      assert SkipObjects(d, at, n) == SkipObjects(d, at + |b|, k + n - 1);
    }
  }

  lemma Completed(b: bytes)
    ensures Open(b, 0) <==> Objects(b, 1)
  {
  }

  lemma NoObjects()
    ensures Objects([], 0)
  {
  }

  lemma {:induction false} ObjectsConcat(parts: seq<bytes>)
    requires forall i :: 0 <= i < |parts| ==> Objects(parts[i], 1)
    ensures Objects(Concat(parts), |parts|)
  {
    hide Objects;
    if parts == [] {
      NoObjects();
    } else {
      assert Objects(parts[0], 1);
      ObjectsConcat(parts[1..]);
      ObjectsJoin(parts[0], 1, Concat(parts[1..]), |parts| - 1);
    }
  }

  /** `b` is all there is of an object before its `k` children. */
  ghost predicate IsHead(b: bytes, k: nat)
  {
    forall d, at: nat {:trigger At(d, at, b)} :: At(d, at, b) ==> HeadOf(d, at) == Some(Head(at + |b|, k))
  }

  lemma HeadOpens(b: bytes, k: nat)
    requires IsHead(b, k)
    ensures Open(b, k)
  {
    hide HeadOf, At;
  }

  lemma ArrayHead(n: nat, d: bytes, at: nat)
    requires n < 0x1_0000_0000 && At(d, at, ArrayHeader(n))
    ensures HeadOf(d, at) == Some(Head(at + |ArrayHeader(n)|, n))
  {
    hide BigEndian, FromBigEndian, At, Pow256;
    WidthBounds();
    if n < 16 {
      ByteAt(d, at, 0x90 + n);
    } else if n < 0x1_0000 {
      MarkedAt(d, at, 0xdc, 2, n);
    } else {
      MarkedAt(d, at, 0xdd, 4, n);
    }
  }

  lemma ArrayHeaderOpens(n: nat)
    requires n < 0x1_0000_0000
    ensures Open(ArrayHeader(n), n)
  {
    hide HeadOf, At, ArrayHeader, Open;
    forall d, at: nat | At(d, at, ArrayHeader(n))
      ensures HeadOf(d, at) == Some(Head(at + |ArrayHeader(n)|, n))
    {
      ArrayHead(n, d, at);
    }
    HeadOpens(ArrayHeader(n), n);
  }

  lemma MapHead(n: nat, d: bytes, at: nat)
    requires n < 0x1_0000_0000 && At(d, at, MapHeader(n))
    ensures HeadOf(d, at) == Some(Head(at + |MapHeader(n)|, 2 * n))
  {
    hide BigEndian, FromBigEndian, At, Pow256;
    WidthBounds();
    if n < 16 {
      ByteAt(d, at, 0x80 + n);
    } else if n < 0x1_0000 {
      MarkedAt(d, at, 0xde, 2, n);
    } else {
      MarkedAt(d, at, 0xdf, 4, n);
    }
  }

  lemma MapHeaderOpens(n: nat)
    requires n < 0x1_0000_0000
    ensures Open(MapHeader(n), 2 * n)
  {
    hide HeadOf, At, MapHeader, Open;
    forall d, at: nat | At(d, at, MapHeader(n))
      ensures HeadOf(d, at) == Some(Head(at + |MapHeader(n)|, 2 * n))
    {
      MapHead(n, d, at);
    }
    HeadOpens(MapHeader(n), 2 * n);
  }

  lemma StrHead(n: nat, d: bytes, at: nat)
    requires n < 0x1_0000_0000 && At(d, at, StrHeader(n))
    ensures HeadOf(d, at) == Fixed(d, at + |StrHeader(n)|, n)
  {
    hide BigEndian, FromBigEndian, At, Pow256, Fixed;
    WidthBounds();
    if n < 32 {
      ByteAt(d, at, 0xa0 + n);
    } else if n < 0x1_0000 {
      MarkedAt(d, at, 0xda, 2, n);
    } else {
      MarkedAt(d, at, 0xdb, 4, n);
    }
  }

  lemma RawStringHead(s: bytes, d: bytes, at: nat)
    requires |s| < 0x1_0000_0000 && At(d, at, EncRawString(s))
    ensures HeadOf(d, at) == Some(Head(at + |EncRawString(s)|, 0))
  {
    hide HeadOf, StrHeader;
    AtSplit(d, at, StrHeader(|s|), s);
    StrHead(|s|, d, at);
  }

  lemma RawStringIsObject(s: bytes)
    requires |s| < 0x1_0000_0000
    ensures Objects(EncRawString(s), 1)
  {
    hide HeadOf, At, EncRawString, Open;
    forall d, at: nat | At(d, at, EncRawString(s))
      ensures HeadOf(d, at) == Some(Head(at + |EncRawString(s)|, 0))
    {
      RawStringHead(s, d, at);
    }
    HeadOpens(EncRawString(s), 0);
    Completed(EncRawString(s));
  }

  /** The marker alone tells how long an int or a float is. */
  predicate FixedLength(b: bytes)
  {
    && b != []
    && var t: int := b[0];
       || ((t <= 0x7f || t >= 0xe0 || t == 0xc0 || t == 0xc2 || t == 0xc3) && |b| == 1)
       || (t == 0xd0 && |b| == 2)
       || ((t == 0xcd || t == 0xd1) && |b| == 3)
       || ((t == 0xca || t == 0xce || t == 0xd2) && |b| == 5)
       || ((t == 0xcb || t == 0xcf || t == 0xd3) && |b| == 9)
  }

  lemma FixedLengthIsObject(b: bytes)
    requires FixedLength(b)
    ensures Objects(b, 1)
  {
    hide Open;
    forall d, at: nat | At(d, at, b) ensures HeadOf(d, at) == Some(Head(at + |b|, 0)) {
      assert d[at] == d[at..at + |b|][0] == b[0];
    }
    HeadOpens(b, 0);
    Completed(b);
  }

  lemma IntIsObject(v: i64)
    ensures Objects(EncInt(v), 1)
  {
    hide Objects, BigEndian;
    FixedLengthIsObject(EncInt(v));
  }

  lemma ScalarIsObject(a: Scalar)
    requires FitsScalar(a)
    ensures Objects(EncScalar(a), 1)
  {
    hide Objects, EncInt;
    match a
    case Str(s) => TextIsObject(PARTICLE_STRING, s);
    case Blob(b) => TextIsObject(PARTICLE_BLOB, b);
    case GeoJSON(s) => TextIsObject(PARTICLE_GEOJSON, s);
    case HLL(b) => TextIsObject(PARTICLE_BLOB, b);
    case Int(i) => IntIsObject(i);
    case UInt(u) => if u < 0x8000_0000_0000_0000 { IntIsObject(u); } else { FixedIsObject(a); }
    case _ => FixedIsObject(a);
  }

  lemma FixedIsObject(a: Scalar)
    requires a.Nil? || a.Bool? || a.F32? || a.F64? || (a.UInt? && a.u >= 0x8000_0000_0000_0000)
    ensures Objects(EncScalar(a), 1)
  {
    hide Objects, BigEndian;
    FixedLengthIsObject(EncScalar(a));
  }

  lemma TextIsObject(particle: byte, s: bytes)
    requires |s| < 0xffff_ffff
    ensures Objects(EncText(particle, s), 1)
  {
    Associates(StrHeader(|s| + 1), [particle], s);
    assert EncText(particle, s) == EncRawString([particle] + s);
    RawStringIsObject([particle] + s);
  }

  /** Every packed value, in any iteration order of its hash maps, is one complete object. */
  lemma {:induction false} ValueIsObject(v: Value)
    requires Fits(v)
    ensures Objects(Enc(v), 1)
    decreases v, 1
  {
    hide Objects, Open, ArrayHeader, MapHeader;
    match v
    case Atom(a) => ScalarIsObject(a);
    case List(items) => ArrayIsObject(items);
    case HashMap(entries) =>
      var parts := EntryParts(entries);
      EntriesAreObjects(entries);
      MapHeaderOpens(|entries|);
      OpenStep(MapHeader(|entries|), 2 * |entries|, Concat(parts), 2 * |entries|);
      Completed(Enc(v));
  }

  lemma {:induction false} ArrayIsObject(items: seq<Value>)
    requires FitsItems(items)
    ensures Objects(EncArray(items), 1)
    decreases items, 0
  {
    hide Objects, Open, ArrayHeader, Enc;
    var parts := ItemParts(items);
    forall i | 0 <= i < |items| ensures Objects(parts[i], 1) {
      ValueIsObject(items[i]);
    }
    ObjectsConcat(parts);
    ArrayHeaderOpens(|items|);
    OpenStep(ArrayHeader(|items|), |items|, Concat(parts), |items|);
    Completed(EncArray(items));
  }

  lemma {:induction false} EntriesAreObjects(entries: seq<Entry>)
    requires Fits(HashMap(entries))
    ensures Objects(EncEntries(entries), 2 * |entries|)
    decreases entries, 0
  {
    hide Objects, Enc;
    if entries == [] {
      assert EntryParts(entries) == [];
      NoObjects();
    } else {
      var e := entries[0];
      assert entries decreases to e;
      ValueIsObject(e.key);
      ValueIsObject(e.value);
      EntriesAreObjects(entries[1..]);
      ObjectsJoin(Enc(e.value), 1, EncEntries(entries[1..]), 2 * (|entries| - 1));
      ObjectsJoin(Enc(e.key), 1, Enc(e.value) + EncEntries(entries[1..]), 2 * |entries| - 1);
      EntriesFront(entries);
    }
  }

  /** In any surroundings, the structural reader ends behind the last byte of the objects. */
  lemma ObjectsEnd(b: bytes, m: nat, prefix: bytes, suffix: bytes)
    requires Objects(b, m)
    ensures SkipObjects(prefix + b + suffix, |prefix|, m) == Some(|prefix| + |b|)
  {
    var d := prefix + b + suffix;
    assert d[|prefix|..|prefix| + |b|] == b;
    assert At(d, |prefix|, b);
    assert SkipObjects(d, |prefix|, m) == SkipObjects(d, |prefix| + |b|, 0);
  }
}
