/**
 Packing a value at any offset of any bytes and unpacking it there: what comes back, and where the
 offset is left.
 */
module RoundTrip {
  import opened Bytes
  import opened Values
  import opened Encoding
  import opened Decoding

  /** `b` stands in `d` at `at`, whatever is before and behind it. */
  predicate At(d: bytes, at: nat, b: bytes)
  {
    at + |b| <= |d| && d[at..at + |b|] == b
  }

  lemma AtSplit(d: bytes, at: nat, a: bytes, b: bytes)
    ensures At(d, at, a + b) <==> At(d, at, a) && At(d, at + |a|, b)
  {
    if At(d, at, a + b) {
      assert d[at..at + |a|] == (a + b)[..|a|];
      assert d[at + |a|..at + |a| + |b|] == (a + b)[|a|..];
    }
    if At(d, at, a) && At(d, at + |a|, b) {
      assert d[at..at + |a + b|] == d[at..at + |a|] + d[at + |a|..at + |a| + |b|];
    }
  }

  lemma MarkedAt(d: bytes, at: nat, marker: byte, width: nat, v: nat)
    requires At(d, at, [marker] + BigEndian(width, v)) && v < Pow256(width)
    ensures at + 1 + width <= |d| && d[at] == marker
    ensures FromBigEndian(d[at + 1..at + 1 + width]) == v
  {
    AtSplit(d, at, [marker], BigEndian(width, v));
    assert d[at] == d[at..at + 1][0];
    BigEndianRoundTrip(width, v);
  }

  lemma ByteAt(d: bytes, at: nat, b: byte)
    requires At(d, at, [b])
    ensures at < |d| && d[at] == b
  {
    assert d[at] == d[at..at + 1][0];
  }

  lemma IntRoundTrip(v: i64, d: bytes, at: nat)
    requires At(d, at, EncInt(v))
    ensures DecValue(d, at) == Done(DAtom(Int(v)), at + |EncInt(v)|)
  {
    hide DecList, DecMap, DecText, DecSizedText, DecSizedExt, BigEndian, FromBigEndian, At, Pow256;
    WidthBounds();
    if 0 <= v < 0x80 {
      ByteAt(d, at, v);
    } else if 0 <= v < 0x7fff {
      MarkedAt(d, at, 0xcd, 2, v);
    } else if 0 <= v < 0x7fff_ffff {
      MarkedAt(d, at, 0xce, 4, v);
    } else if 0 <= v {
      MarkedAt(d, at, 0xd3, 8, v);
    } else if v >= -32 {
      ByteAt(d, at, 0xe0 + (v + 32));
    } else if v >= -0x80 {
      OneByte(v % 0x100);
      assert EncInt(v) == [0xd0] + BigEndian(1, v % 0x100);
      MarkedAt(d, at, 0xd0, 1, v % 0x100);
    } else if v >= -0x8000 {
      MarkedAt(d, at, 0xd1, 2, v % 0x1_0000);
    } else if v >= -0x8000_0000 {
      MarkedAt(d, at, 0xd2, 4, v % 0x1_0000_0000);
    } else {
      MarkedAt(d, at, 0xd3, 8, v % 0x1_0000_0000_0000_0000);
    }
  }

  lemma OneByte(v: byte)
    ensures BigEndian(1, v) == [v]
  {
    assert BigEndian(0, v / 256) == [];
  }

  lemma WideRoundTrip(a: Scalar, d: bytes, at: nat)
    requires a.F32? || a.F64? || (a.UInt? && a.u >= 0x8000_0000_0000_0000)
    requires At(d, at, EncScalar(a))
    ensures DecValue(d, at) == Done(DAtom(ScalarReadBack(a)), at + |EncScalar(a)|)
  {
    hide DecList, DecMap, DecText, DecSizedText, DecSizedExt, BigEndian, FromBigEndian, At, Pow256;
    WidthBounds();
    match a
    case F32(bits) => MarkedAt(d, at, 0xca, 4, bits);
    case F64(bits) => MarkedAt(d, at, 0xcb, 8, bits);
    case UInt(u) => MarkedAt(d, at, 0xcf, 8, u);
  }

  lemma StrHeaderAt(d: bytes, at: nat, n: nat)
    requires At(d, at, StrHeader(n)) && n < 0x1_0000_0000
    ensures DecValue(d, at) == DecText(d, at + |StrHeader(n)|, n)
  {
    hide DecList, DecMap, DecText, DecSizedExt, BigEndian, FromBigEndian, At, Pow256;
    WidthBounds();
    if n < 32 {
      ByteAt(d, at, 0xa0 + n);
    } else if n < 0x1_0000 {
      MarkedAt(d, at, 0xda, 2, n);
    } else {
      MarkedAt(d, at, 0xdb, 4, n);
    }
  }

  lemma TextRoundTrip(particle: byte, s: bytes, d: bytes, at: nat)
    requires particle == PARTICLE_BLOB || ((particle == PARTICLE_STRING || particle == PARTICLE_GEOJSON) && ValidUtf8(s))
    requires |s| < 0xffff_ffff
    requires At(d, at, EncText(particle, s))
    ensures DecValue(d, at)
         == Done(DAtom(if particle == PARTICLE_BLOB then Blob(s)
                       else if particle == PARTICLE_STRING then Str(s) else GeoJSON(s)),
                 at + |EncText(particle, s)|)
  {
    hide DecValue, StrHeader, ValidUtf8;
    var h := StrHeader(|s| + 1);
    AtSplit(d, at, h + [particle], s);
    AtSplit(d, at, h, [particle]);
    ByteAt(d, at + |h|, particle);
    StrHeaderAt(d, at, |s| + 1);
  }

  lemma ScalarRoundTrip(a: Scalar, d: bytes, at: nat)
    requires FitsScalar(a) && At(d, at, EncScalar(a))
    ensures DecValue(d, at) == Done(DAtom(ScalarReadBack(a)), at + |EncScalar(a)|)
  {
    match a
    case Nil => ByteAt(d, at, 0xc0);
    case Bool(b) => ByteAt(d, at, if b then 0xc3 else 0xc2);
    case Int(i) => hide DecValue, EncInt; IntRoundTrip(i, d, at);
    case UInt(u) =>
      hide DecValue, EncInt;
      if u < 0x8000_0000_0000_0000 {
        IntRoundTrip(u, d, at);
      } else {
        WideRoundTrip(a, d, at);
      }
    case F32(_) => hide DecValue; WideRoundTrip(a, d, at);
    case F64(_) => hide DecValue; WideRoundTrip(a, d, at);
    case Str(s) => hide DecValue; TextRoundTrip(PARTICLE_STRING, s, d, at);
    case Blob(b) => hide DecValue; TextRoundTrip(PARTICLE_BLOB, b, d, at);
    case GeoJSON(s) => hide DecValue; TextRoundTrip(PARTICLE_GEOJSON, s, d, at);
    case HLL(b) => hide DecValue; TextRoundTrip(PARTICLE_BLOB, b, d, at);
  }

  lemma ArrayHeaderAt(d: bytes, at: nat, n: nat)
    requires At(d, at, ArrayHeader(n)) && n < 0x1_0000_0000
    ensures DecValue(d, at) == DecList(d, at + |ArrayHeader(n)|, n)
  {
    hide DecList, DecMap, DecText, DecSizedExt, BigEndian, FromBigEndian, At, Pow256;
    WidthBounds();
    if n < 16 {
      ByteAt(d, at, 0x90 + n);
    } else if n < 0x1_0000 {
      MarkedAt(d, at, 0xdc, 2, n);
    } else {
      MarkedAt(d, at, 0xdd, 4, n);
    }
  }

  lemma MapHeaderAt(d: bytes, at: nat, n: nat)
    requires At(d, at, MapHeader(n)) && n < 0x1_0000_0000
    ensures DecValue(d, at) == DecMap(d, at + |MapHeader(n)|, n)
  {
    hide DecList, DecMap, DecText, DecSizedExt, BigEndian, FromBigEndian, At, Pow256;
    WidthBounds();
    if n < 16 {
      ByteAt(d, at, 0x80 + n);
    } else if n < 0x1_0000 {
      MarkedAt(d, at, 0xde, 2, n);
    } else {
      MarkedAt(d, at, 0xdf, 4, n);
    }
  }

  /** No value starts like an ext object, so a plain list or map never takes the skipping path. */
  lemma NoValueIsExt(v: Value)
    ensures !IsExt(Enc(v)[0])
  {
    hide EncItems, EncEntries, BigEndian;
    match v
    case Atom(a) =>
      match a {
        case Str(s) => assert EncScalar(a)[0] == StrHeader(|s| + 1)[0];
        case Blob(s) => assert EncScalar(a)[0] == StrHeader(|s| + 1)[0];
        case GeoJSON(s) => assert EncScalar(a)[0] == StrHeader(|s| + 1)[0];
        case HLL(s) => assert EncScalar(a)[0] == StrHeader(|s| + 1)[0];
        case _ =>
      }
    case List(items) => assert Enc(v)[0] == ArrayHeader(|items|)[0];
    case HashMap(entries) => assert Enc(v)[0] == MapHeader(|entries|)[0];
  }

  lemma FirstByte(v: Value, d: bytes, at: nat)
    requires At(d, at, Enc(v))
    ensures at < |d| && !IsExt(d[at])
  {
    hide Enc, IsExt;
    NoValueIsExt(v);
    assert d[at] == d[at..at + |Enc(v)|][0];
  }

  /** The keys of every hash map in `v` can be hashed. */
  predicate Hashable(v: Value)
  {
    match v
    case Atom(_) => true
    case List(items) => forall i :: 0 <= i < |items| ==> Hashable(items[i])
    case HashMap(entries) =>
      forall i :: 0 <= i < |entries| ==>
        MapFree(entries[i].key) && Hashable(entries[i].key) && Hashable(entries[i].value)
  }

  lemma {:induction false} ValidIsHashable(v: Value)
    requires Valid(v)
    ensures Hashable(v)
  {
    match v
    case Atom(_) =>
    case List(items) =>
      forall i | 0 <= i < |items| ensures Hashable(items[i]) {
        ValidIsHashable(items[i]);
      }
    case HashMap(entries) =>
      forall i | 0 <= i < |entries| ensures Hashable(entries[i].key) && Hashable(entries[i].value) {
        ValidIsHashable(entries[i].key);
        ValidIsHashable(entries[i].value);
      }
  }

  /**
   The round trip in context.  The offset ends exactly behind the packed bytes, and what is read is
   the value as the wire keeps it, for every iteration order of its hash maps.
   */
  lemma {:induction false} ValueRoundTrip(v: Value, d: bytes, at: nat)
    requires Hashable(v) && Fits(v) && At(d, at, Enc(v))
    ensures DecValue(d, at) == Done(ReadBack(v), at + |Enc(v)|)
    decreases v, 1
  {
    hide DecValue, At, ArrayHeader, MapHeader;
    match v
    case Atom(a) => ScalarRoundTrip(a, d, at);
    case List(items) =>
      var h := ArrayHeader(|items|);
      AtSplit(d, at, h, EncItems(items));
      ArrayHeaderAt(d, at, |items|);
      PlainListRoundTrip(items, d, at + |h|);
    case HashMap(entries) =>
      var h := MapHeader(|entries|);
      AtSplit(d, at, h, EncEntries(entries));
      MapHeaderAt(d, at, |entries|);
      PlainMapRoundTrip(entries, d, at + |h|);
  }

  lemma {:induction false} PlainListRoundTrip(items: seq<Value>, d: bytes, at: nat)
    requires Hashable(List(items)) && FitsItems(items) && At(d, at, EncItems(items))
    ensures DecList(d, at, |items|) == Done(DList(ViewItems(items, true)), at + |EncItems(items)|)
    decreases items, 1
  {
    hide DecValue, At, Enc, DecItems, IsExt;
    ItemsRoundTrip(items, d, at);
    if items == [] {
      assert ItemParts(items) == [];
    } else {
      ItemsFront(items);
      AtSplit(d, at, Enc(items[0]), EncItems(items[1..]));
      FirstByte(items[0], d, at);
    }
  }

  lemma ItemsFront(items: seq<Value>)
    requires items != []
    ensures EncItems(items) == Enc(items[0]) + EncItems(items[1..])
  {
    hide Enc, Concat;
    ConcatFront(ItemParts(items));
    assert ItemParts(items)[1..] == ItemParts(items[1..]);
  }

  lemma EntriesFront(entries: seq<Entry>)
    requires entries != []
    ensures EncEntries(entries) == Enc(entries[0].key) + (Enc(entries[0].value) + EncEntries(entries[1..]))
  {
    hide Enc, Concat;
    ConcatFront(EntryParts(entries));
    assert EntryParts(entries)[1..] == EntryParts(entries[1..]);
    Associates(Enc(entries[0].key), Enc(entries[0].value), EncEntries(entries[1..]));
  }

  lemma {:induction false} ItemsRoundTrip(items: seq<Value>, d: bytes, at: nat)
    requires Hashable(List(items)) && FitsItems(items) && At(d, at, EncItems(items))
    ensures DecItems(d, at, |items|) == Done(ViewItems(items, true), at + |EncItems(items)|)
    decreases items, 0
  {
    hide DecValue, At, Enc;
    if items == [] {
      assert ItemParts(items) == [];
    } else {
      var v := items[0];
      ItemsFront(items);
      AtSplit(d, at, Enc(v), EncItems(items[1..]));
      ValueRoundTrip(v, d, at);
      ItemsRoundTrip(items[1..], d, at + |Enc(v)|);
    }
  }

  lemma {:induction false} PlainMapRoundTrip(entries: seq<Entry>, d: bytes, at: nat)
    requires Hashable(HashMap(entries)) && Fits(HashMap(entries)) && At(d, at, EncEntries(entries))
    ensures DecMap(d, at, |entries|) == Done(DMap(Insert(map[], entries, true)), at + |EncEntries(entries)|)
    decreases entries, 1
  {
    hide DecValue, At, Enc, DecEntries, IsExt;
    EntriesRoundTrip(entries, d, at, map[]);
    if entries == [] {
      assert EntryParts(entries) == [];
    } else {
      var e := entries[0];
      EntriesFront(entries);
      AtSplit(d, at, Enc(e.key), Enc(e.value) + EncEntries(entries[1..]));
      FirstByte(e.key, d, at);
    }
  }

  lemma {:induction false} EntriesRoundTrip(entries: seq<Entry>, d: bytes, at: nat, m: map<Datum, Datum>)
    requires Hashable(HashMap(entries)) && Fits(HashMap(entries)) && At(d, at, EncEntries(entries))
    ensures DecEntries(d, at, |entries|, m) == Done(Insert(m, entries, true), at + |EncEntries(entries)|)
    decreases entries, 0
  {
    hide DecValue, At, Enc;
    if entries == [] {
      assert EntryParts(entries) == [];
    } else {
      var e := entries[0];
      assert entries decreases to e;
      EntriesFront(entries);
      AtSplit(d, at, Enc(e.key), Enc(e.value) + EncEntries(entries[1..]));
      AtSplit(d, at + |Enc(e.key)|, Enc(e.value), EncEntries(entries[1..]));
      ValueRoundTrip(e.key, d, at);
      ValueRoundTrip(e.value, d, at + |Enc(e.key)|);
      MapFreeView(e.key, true);
      EntriesRoundTrip(entries[1..], d, at + |Enc(e.key)| + |Enc(e.value)|, m[ReadBack(e.key) := ReadBack(e.value)]);
    }
  }

  /** Round trip: what is packed is what is unpacked, exactly for the values in normal form. */
  lemma NormalRoundTrip(v: Value, prefix: bytes, suffix: bytes)
    requires Valid(v) && Fits(v)
    ensures DecValue(prefix + Enc(v) + suffix, |prefix|) == Done(Meaning(v), |prefix| + |Enc(v)|)
            <==> NormalForm(v)
  {
    hide DecValue, Enc;
    var d := prefix + Enc(v) + suffix;
    assert d[|prefix|..|prefix| + |Enc(v)|] == Enc(v);
    ValidIsHashable(v);
    ValueRoundTrip(v, d, |prefix|);
    ReadBackIsExact(v);
  }

  // ---------------------------------------------------------------------------------------------
  // Order flags: an ext object in front of a list, or an ext object and a nil in front of a map

  /** The ext objects of the MessagePack specification: of a fixed length, or with a length of `width` bytes. */
  datatype Ext =
    | FixExt(code: byte, body: bytes)
    | SizedExt(width: nat, code: byte, body: bytes)

  predicate WellFormedExt(e: Ext)
  {
    match e
    case FixExt(_, body) => |body| in {1, 2, 4, 8, 16}
    case SizedExt(width, _, body) => width in {1, 2, 4} && |body| < Pow256(width)
  }

  function EncExt(e: Ext): bytes
    requires WellFormedExt(e)
  {
    match e
    case FixExt(code, body) =>
      var n := |body|;
      [if n == 1 then 0xd4 else if n == 2 then 0xd5 else if n == 4 then 0xd6 else if n == 8 then 0xd7 else 0xd8, code] + body
    case SizedExt(width, code, body) =>
      [if width == 1 then 0xc7 else if width == 2 then 0xc8 else 0xc9] + BigEndian(width, |body|) + ([code] + body)
  }

  /** One more than the length does not fit the type the length was read as. */
  predicate LengthOverflows(e: Ext)
  {
    e.SizedExt? && |e.body| + 1 == Pow256(e.width)
  }

  lemma ExtIsSkipped(e: Ext, d: bytes, at: nat)
    requires WellFormedExt(e) && At(d, at, EncExt(e))
    ensures IsExt(d[at])
    ensures DecValue(d, at) == if LengthOverflows(e) then Panics else Done(DAtom(Nil), at + |EncExt(e)|)
  {
    match e
    case FixExt(code, body) =>
      assert d[at] == d[at..at + |EncExt(e)|][0] == EncExt(e)[0];
    case SizedExt(width, code, body) =>
      SizedExtIsSkipped(width, code, body, d, at);
  }

  lemma SizedExtIsSkipped(width: nat, code: byte, body: bytes, d: bytes, at: nat)
    requires width in {1, 2, 4} && |body| < Pow256(width)
    requires At(d, at, EncExt(SizedExt(width, code, body)))
    ensures at + 1 + width <= |d| && IsExt(d[at])
    ensures DecValue(d, at)
         == if |body| + 1 == Pow256(width) then Panics
            else Done(DAtom(Nil), at + |EncExt(SizedExt(width, code, body))|)
  {
    hide DecValue, BigEndian, FromBigEndian, Pow256, At;
    var marker := if width == 1 then 0xc7 else if width == 2 then 0xc8 else 0xc9;
    AtSplit(d, at, [marker] + BigEndian(width, |body|), [code] + body);
    MarkedAt(d, at, marker, width, |body|);
    SizedExtMarker(d, at);
  }

  lemma SizedExtMarker(d: bytes, at: nat)
    requires at < |d|
    ensures d[at] == 0xc7 ==> DecValue(d, at) == DecSizedExt(d, at + 1, 1)
    ensures d[at] == 0xc8 ==> DecValue(d, at) == DecSizedExt(d, at + 1, 2)
    ensures d[at] == 0xc9 ==> DecValue(d, at) == DecSizedExt(d, at + 1, 4)
  {
    hide DecSizedExt, DecList, DecMap, DecText, DecSizedText, DecInt, DecWide;
  }

  /**
   An ordered list, which is a list with an ext object in front that counts as an item, reads as the
   list does: exactly when the length of the ext object leaves room for the type byte.
   */
  lemma ListOrderFlag(e: Ext, items: seq<Value>, d: bytes, at: nat)
    requires WellFormedExt(e) && Hashable(List(items)) && FitsItems(items)
    requires At(d, at, EncExt(e) + EncItems(items))
    ensures DecList(d, at, 1 + |items|)
            == Done(DList(ViewItems(items, true)), at + |EncExt(e)| + |EncItems(items)|)
            <==> !LengthOverflows(e)
  {
    hide DecValue, At, EncItems, EncExt, DecItems, IsExt;
    AtSplit(d, at, EncExt(e), EncItems(items));
    assert at < |d| by {
      assert EncExt(e) != [] by {
        ExtNotEmpty(e);
      }
      AtBounds(d, at, EncExt(e));
    }
    ExtIsSkipped(e, d, at);
    ItemsRoundTrip(items, d, at + |EncExt(e)|);
  }

  lemma ExtNotEmpty(e: Ext)
    requires WellFormedExt(e)
    ensures EncExt(e) != []
  {
  }

  lemma AtBounds(d: bytes, at: nat, b: bytes)
    requires At(d, at, b)
    ensures at + |b| <= |d| && d[at..at + |b|] == b
  {
  }

  /** The same for an ordered map: an ext object and a nil in front, which count as an entry. */
  lemma MapOrderFlag(e: Ext, entries: seq<Entry>, d: bytes, at: nat)
    requires WellFormedExt(e) && Hashable(HashMap(entries)) && Fits(HashMap(entries))
    requires At(d, at, EncExt(e) + ([0xc0] + EncEntries(entries)))
    ensures DecMap(d, at, 1 + |entries|)
            == Done(DMap(Insert(map[], entries, true)), at + |EncExt(e)| + 1 + |EncEntries(entries)|)
            <==> !LengthOverflows(e)
  {
    hide DecValue, At, EncEntries, EncExt, DecEntries, IsExt;
    AtSplit(d, at, EncExt(e), [0xc0] + EncEntries(entries));
    AtSplit(d, at + |EncExt(e)|, [0xc0], EncEntries(entries));
    ExtNotEmpty(e);
    AtBounds(d, at, EncExt(e));
    ExtIsSkipped(e, d, at);
    ScalarRoundTrip(Nil, d, at + |EncExt(e)|);
    EntriesRoundTrip(entries, d, at + |EncExt(e)| + 1, map[]);
  }
}
