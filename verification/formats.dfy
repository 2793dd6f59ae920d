/**
 The formats that a server may answer in, each read as the "Formats" section of the MessagePack specification
 says.  The packer of the client writes only some of them, so these facts are about the bytes themselves.
 */
module Formats {
  import opened Bytes
  import opened Values
  import opened Encoding
  import opened Decoding
  import opened Particles
  import opened RoundTrip

  // ---------------------------------------------------------------------------------------------
  // Numbers of several bytes

  lemma DivideTwice(v: nat, p: nat)
    requires p > 0
    ensures (v / 256) / p == v / (256 * p)
  {
    var q, r := (v / 256) / p, (v / 256) % p;
    assert v / 256 == q * p + r;
    assert v == 256 * (q * p) + (256 * r + v % 256);
    assert 256 * (q * p) == q * (256 * p);
    Quotient(v, q, 256 * p, 256 * r + v % 256);
  }

  lemma Quotient(v: nat, q: nat, m: nat, r: nat)
    requires m > 0 && r < m && v == q * m + r
    ensures v / m == q
  {
    var d := v / m;
    assert (d - q) * m == r - v % m;
    if d != q {
      AtLeastOnce(d - q, m);
    }
  }

  lemma AtLeastOnce(k: int, m: int)
    requires k != 0 && m > 0
    ensures k * m >= m || k * m <= -m
  {
  }

  /** Big-endian: the digits to the base of 256, the most significant one first. */
  lemma {:induction false} BigEndianDigit(n: nat, v: nat, i: nat)
    requires i < n
    ensures BigEndian(n, v)[i] == (v / Pow256(n - 1 - i)) % 256
  {
    if i < n - 1 {
      BigEndianDigit(n - 1, v / 256, i);
      DivideTwice(v, Pow256(n - 2 - i));
    }
  }

  // ---------------------------------------------------------------------------------------------
  // Values

  /** Between any prefix and suffix, `form` is read as `a` and the offset is left behind it. */
  predicate ReadsAs(prefix: bytes, form: bytes, suffix: bytes, a: Scalar)
  {
    DecValue(prefix + form + suffix, |prefix|) == Done(DAtom(a), |prefix| + |form|)
  }

  lemma Placed(prefix: bytes, form: bytes, suffix: bytes)
    ensures At(prefix + form + suffix, |prefix|, form)
  {
    assert (prefix + form + suffix)[|prefix|..|prefix| + |form|] == form;
  }

  /** Every unsigned form is read as the number in it; only the one of eight bytes stays unsigned. */
  lemma UnsignedForms(n: u64, prefix: bytes, suffix: bytes)
    ensures n < 0x80 ==> ReadsAs(prefix, [n], suffix, Int(n))
    ensures n < 0x100 ==> ReadsAs(prefix, [0xcc] + BigEndian(1, n), suffix, Int(n))
    ensures n < 0x1_0000 ==> ReadsAs(prefix, [0xcd] + BigEndian(2, n), suffix, Int(n))
    ensures n < 0x1_0000_0000 ==> ReadsAs(prefix, [0xce] + BigEndian(4, n), suffix, Int(n))
    ensures ReadsAs(prefix, [0xcf] + BigEndian(8, n), suffix, UInt(n))
  {
    hide ReadsAs, BigEndian;
    if n < 0x80 { OneByteForm(n, prefix, suffix); }
    if n < 0x100 { MarkedForm(0xcc, 1, n, prefix, suffix); }
    if n < 0x1_0000 { MarkedForm(0xcd, 2, n, prefix, suffix); }
    if n < 0x1_0000_0000 { MarkedForm(0xce, 4, n, prefix, suffix); }
    MarkedForm(0xcf, 8, n, prefix, suffix);
  }

  /** Every signed form is read as the number whose two's complement is in it. */
  lemma SignedForms(i: i64, prefix: bytes, suffix: bytes)
    ensures -32 <= i < 0 ==> ReadsAs(prefix, [0x100 + i], suffix, Int(i))
    ensures -0x80 <= i < 0x80 ==>
              ReadsAs(prefix, [0xd0] + BigEndian(1, if i < 0 then 0x100 + i else i), suffix, Int(i))
    ensures -0x8000 <= i < 0x8000 ==>
              ReadsAs(prefix, [0xd1] + BigEndian(2, if i < 0 then 0x1_0000 + i else i), suffix, Int(i))
    ensures -0x8000_0000 <= i < 0x8000_0000 ==>
              ReadsAs(prefix, [0xd2] + BigEndian(4, if i < 0 then 0x1_0000_0000 + i else i), suffix, Int(i))
    ensures ReadsAs(prefix, [0xd3] + BigEndian(8, if i < 0 then 0x1_0000_0000_0000_0000 + i else i), suffix, Int(i))
  {
    hide ReadsAs, BigEndian;
    if -32 <= i < 0 { OneByteForm(0x100 + i, prefix, suffix); }
    if -0x80 <= i < 0x80 { MarkedForm(0xd0, 1, if i < 0 then 0x100 + i else i, prefix, suffix); }
    if -0x8000 <= i < 0x8000 { MarkedForm(0xd1, 2, if i < 0 then 0x1_0000 + i else i, prefix, suffix); }
    if -0x8000_0000 <= i < 0x8000_0000 {
      MarkedForm(0xd2, 4, if i < 0 then 0x1_0000_0000 + i else i, prefix, suffix);
    }
    MarkedForm(0xd3, 8, if i < 0 then 0x1_0000_0000_0000_0000 + i else i, prefix, suffix);
  }

  lemma OneByteForm(b: byte, prefix: bytes, suffix: bytes)
    ensures b < 0x80 ==> ReadsAs(prefix, [b], suffix, Int(b))
    ensures b >= 0xe0 ==> ReadsAs(prefix, [b], suffix, Int(b - 0x100))
  {
    Placed(prefix, [b], suffix);
    ByteAt(prefix + [b] + suffix, |prefix|, b);
  }

  /** What a number behind each marker is. */
  function NumberBehind(marker: byte, v: u64): Scalar
  {
    match marker
    case 0xd0 => Int(if v < 0x80 then v else (v % 0x100) - 0x100)
    case 0xd1 => Int(if v < 0x8000 then v else (v % 0x1_0000) - 0x1_0000)
    case 0xd2 => Int(if v < 0x8000_0000 then v else (v % 0x1_0000_0000) - 0x1_0000_0000)
    case 0xd3 => Int(if v < 0x8000_0000_0000_0000 then v else v - 0x1_0000_0000_0000_0000)
    case 0xca => F32(Canonical32(v % 0x1_0000_0000))
    case 0xcb => F64(Canonical64(v))
    case 0xcf => UInt(v)
    case _ => Int(v % 0x1_0000_0000)
  }

  lemma MarkedForm(marker: byte, width: nat, v: nat, prefix: bytes, suffix: bytes)
    requires (marker, width) in {(0xcc, 1), (0xcd, 2), (0xce, 4), (0xd0, 1), (0xd1, 2), (0xd2, 4), (0xd3, 8),
                                 (0xca, 4), (0xcb, 8), (0xcf, 8)}
    requires v < (if width == 1 then 0x100 else if width == 2 then 0x1_0000 else if width == 4 then 0x1_0000_0000
                  else 0x1_0000_0000_0000_0000)
    ensures ReadsAs(prefix, [marker] + BigEndian(width, v), suffix, NumberBehind(marker, v))
  {
    hide DecList, DecMap, DecText, DecSizedText, DecSizedExt, BigEndian, FromBigEndian, At, Pow256, IsNaN32, IsNaN64;
    var form := [marker] + BigEndian(width, v);
    WidthBounds();
    Placed(prefix, form, suffix);
    MarkedAt(prefix + form + suffix, |prefix|, marker, width, v);
  }

  /** Nil, the truth values, and the one marker that no format uses. */
  lemma PlainForms(prefix: bytes, suffix: bytes)
    ensures ReadsAs(prefix, [0xc0], suffix, Nil)
    ensures ReadsAs(prefix, [0xc2], suffix, Bool(false))
    ensures ReadsAs(prefix, [0xc3], suffix, Bool(true))
    ensures DecValue(prefix + [0xc1] + suffix, |prefix|) == Bad(|prefix| + 1)
  {
    forall b: byte | b in {0xc0, 0xc1, 0xc2, 0xc3} ensures (prefix + [b] + suffix)[|prefix|] == b {
      Placed(prefix, [b], suffix);
    }
  }

  /** Floats: an exponent of ones alone with a mantissa that is not 0 is a NaN, and every NaN becomes the quiet one. */
  lemma FloatForms(bits32: u32, bits64: u64, prefix: bytes, suffix: bytes)
    ensures ReadsAs(prefix, [0xca] + BigEndian(4, bits32), suffix,
                    F32(if (bits32 / 0x80_0000) % 0x100 == 0xff && bits32 % 0x80_0000 != 0 then 0x7fc0_0000 else bits32))
    ensures ReadsAs(prefix, [0xcb] + BigEndian(8, bits64), suffix,
                    F64(if (bits64 / 0x10_0000_0000_0000) % 0x800 == 0x7ff && bits64 % 0x10_0000_0000_0000 != 0
                        then 0x7ff8_0000_0000_0000 else bits64))
  {
    hide ReadsAs, BigEndian;
    QuietNaNs(bits32, bits64);
    MarkedForm(0xca, 4, bits32, prefix, suffix);
    MarkedForm(0xcb, 8, bits64, prefix, suffix);
  }

  lemma QuietNaNs(bits32: u32, bits64: u64)
    ensures Canonical32(bits32)
         == if (bits32 / 0x80_0000) % 0x100 == 0xff && bits32 % 0x80_0000 != 0 then 0x7fc0_0000 else bits32
    ensures Canonical64(bits64)
         == if (bits64 / 0x10_0000_0000_0000) % 0x800 == 0x7ff && bits64 % 0x10_0000_0000_0000 != 0
            then 0x7ff8_0000_0000_0000 else bits64
  {
  }

  /** What a text behind the particle code 3, 4 or 23 is. */
  function TextOf(code: byte, s: bytes): Scalar
    requires code in {3, 4, 23} && (code != 4 ==> ValidUtf8(s))
  {
    if code == 3 then Str(s) else if code == 4 then Blob(s) else GeoJSON(s)
  }

  /** The headers that announce `n` bytes, of the bin and of the str family alike. */
  predicate TextHeader(h: bytes, n: nat)
  {
    || (n < 32 && h == [0xa0 + n])
    || (n < 0x100 && (h == [0xc4] + BigEndian(1, n) || h == [0xd9] + BigEndian(1, n)))
    || (n < 0x1_0000 && (h == [0xc5] + BigEndian(2, n) || h == [0xda] + BigEndian(2, n)))
    || (n < 0x1_0000_0000 && (h == [0xc6] + BigEndian(4, n) || h == [0xdb] + BigEndian(4, n)))
  }

  lemma TextHeaderRead(h: bytes, n: nat, d: bytes, at: nat)
    requires TextHeader(h, n) && At(d, at, h)
    ensures DecValue(d, at) == DecText(d, at + |h|, n)
  {
    hide DecList, DecMap, DecText, DecSizedExt, DecInt, DecWide, BigEndian, FromBigEndian, At, Pow256;
    WidthBounds();
    if h == [0xa0 + n % 32] {
      ByteAt(d, at, 0xa0 + n % 32);
    }
    if h == [0xc4] + BigEndian(1, n) { MarkedAt(d, at, 0xc4, 1, n); }
    if h == [0xd9] + BigEndian(1, n) { MarkedAt(d, at, 0xd9, 1, n); }
    if h == [0xc5] + BigEndian(2, n) { MarkedAt(d, at, 0xc5, 2, n); }
    if h == [0xda] + BigEndian(2, n) { MarkedAt(d, at, 0xda, 2, n); }
    if h == [0xc6] + BigEndian(4, n) { MarkedAt(d, at, 0xc6, 4, n); }
    if h == [0xdb] + BigEndian(4, n) { MarkedAt(d, at, 0xdb, 4, n); }
  }

  /**
   A text is the same behind each header that announces it.  The first of the announced bytes is its particle code:
   3 is a string, 4 a blob and 23 GeoJSON; a text that is not valid and every other known code is an error.
   */
  lemma TextForms(h: bytes, code: byte, s: bytes, prefix: bytes, suffix: bytes)
    requires TextHeader(h, 1 + |s|)
    ensures var r := DecValue(prefix + (h + [code] + s) + suffix, |prefix|);
      && (code in {3, 4, 23} && (code != 4 ==> ValidUtf8(s)) ==> ReadsAs(prefix, h + [code] + s, suffix, TextOf(code, s)))
      && (code in {3, 23} && !ValidUtf8(s) ==> r == Bad(|prefix| + |h| + 1))
      && (code in {0, 1, 2, 6, 17, 18, 19, 20, 21} ==> r == Bad(|prefix| + |h| + 1))
      && (code !in {0, 1, 2, 3, 4, 6, 17, 18, 19, 20, 21, 23} ==> r == Panics)
  {
    hide DecValue, TextHeader, ValidUtf8, At;
    var form := h + [code] + s;
    var d, at := prefix + form + suffix, |prefix|;
    Placed(prefix, form, suffix);
    AtSplit(d, at, h + [code], s);
    AtSplit(d, at, h, [code]);
    ByteAt(d, at + |h|, code);
    AtBounds(d, at + |h| + 1, s);
    TextHeaderRead(h, 1 + |s|, d, at);
  }

  /** A text without even a particle code is a panic. */
  lemma EmptyTextPanics(h: bytes, prefix: bytes, suffix: bytes)
    requires TextHeader(h, 0)
    ensures DecValue(prefix + h + suffix, |prefix|) == Panics
  {
    hide DecValue, TextHeader;
    Placed(prefix, h, suffix);
    TextHeaderRead(h, 0, prefix + h + suffix, |prefix|);
  }

  /** Each header that can announce `n` elements. */
  predicate ListHeader(h: bytes, n: nat)
  {
    || (n < 16 && h == [0x90 + n])
    || (n < 0x1_0000 && h == [0xdc] + BigEndian(2, n))
    || (n < 0x1_0000_0000 && h == [0xdd] + BigEndian(4, n))
  }

  /** Each header that can announce `n` entries. */
  predicate EntryHeader(h: bytes, n: nat)
  {
    || (n < 16 && h == [0x80 + n])
    || (n < 0x1_0000 && h == [0xde] + BigEndian(2, n))
    || (n < 0x1_0000_0000 && h == [0xdf] + BigEndian(4, n))
  }

  lemma ListHeaderRead(h: bytes, n: nat, d: bytes, at: nat)
    requires ListHeader(h, n) && At(d, at, h)
    ensures DecValue(d, at) == DecList(d, at + |h|, n)
  {
    hide DecList, DecMap, DecText, DecSizedExt, DecInt, DecWide, BigEndian, FromBigEndian, At, Pow256;
    WidthBounds();
    if h == [0x90 + n % 16] {
      ByteAt(d, at, 0x90 + n % 16);
    }
    if h == [0xdc] + BigEndian(2, n) { MarkedAt(d, at, 0xdc, 2, n); }
    if h == [0xdd] + BigEndian(4, n) { MarkedAt(d, at, 0xdd, 4, n); }
  }

  lemma EntryHeaderRead(h: bytes, n: nat, d: bytes, at: nat)
    requires EntryHeader(h, n) && At(d, at, h)
    ensures DecValue(d, at) == DecMap(d, at + |h|, n)
  {
    hide DecList, DecMap, DecText, DecSizedExt, DecInt, DecWide, BigEndian, FromBigEndian, At, Pow256;
    WidthBounds();
    if h == [0x80 + n % 16] {
      ByteAt(d, at, 0x80 + n % 16);
    }
    if h == [0xde] + BigEndian(2, n) { MarkedAt(d, at, 0xde, 2, n); }
    if h == [0xdf] + BigEndian(4, n) { MarkedAt(d, at, 0xdf, 4, n); }
  }

  /** A list is the same behind each header that announces its elements. */
  lemma ListForms(h: bytes, items: seq<Value>, prefix: bytes, suffix: bytes)
    requires ListHeader(h, |items|) && Hashable(List(items)) && FitsItems(items)
    ensures DecValue(prefix + (h + EncItems(items)) + suffix, |prefix|)
         == Done(DList(ViewItems(items, true)), |prefix| + |h| + |EncItems(items)|)
  {
    hide DecValue, DecList, ListHeader, Hashable, FitsItems, EncItems;
    var form := h + EncItems(items);
    var d := prefix + form + suffix;
    Placed(prefix, form, suffix);
    AtSplit(d, |prefix|, h, EncItems(items));
    ListHeaderRead(h, |items|, d, |prefix|);
    PlainListRoundTrip(items, d, |prefix| + |h|);
  }

  /** A map is the same behind each header that announces its entries. */
  lemma MapForms(h: bytes, entries: seq<Entry>, prefix: bytes, suffix: bytes)
    requires EntryHeader(h, |entries|) && Hashable(HashMap(entries)) && Fits(HashMap(entries))
    ensures DecValue(prefix + (h + EncEntries(entries)) + suffix, |prefix|)
         == Done(DMap(Insert(map[], entries, true)), |prefix| + |h| + |EncEntries(entries)|)
  {
    hide DecValue, DecMap, EntryHeader, Hashable, Fits, EncEntries;
    var form := h + EncEntries(entries);
    var d := prefix + form + suffix;
    Placed(prefix, form, suffix);
    AtSplit(d, |prefix|, h, EncEntries(entries));
    EntryHeaderRead(h, |entries|, d, |prefix|);
    PlainMapRoundTrip(entries, d, |prefix| + |h|);
  }

  lemma {:induction false} InsertJoin(m: map<Datum, Datum>, entries: seq<Entry>, e: Entry)
    ensures Insert(m, entries + [e], true) == Insert(m, entries, true)[ReadBack(e.key) := ReadBack(e.value)]
    decreases |entries|
  {
    if entries == [] {
      assert [] + [e] == [e] && [e][1..] == [];
    } else {
      assert (entries + [e])[1..] == entries[1..] + [e];
      InsertJoin(m[ReadBack(entries[0].key) := ReadBack(entries[0].value)], entries[1..], e);
    }
  }

  /** A key that is sent twice has the value that is sent last, and nothing but keys that were sent is in the map. */
  lemma LastEntryWins(h: bytes, entries: seq<Entry>, e: Entry, prefix: bytes, suffix: bytes)
    requires EntryHeader(h, |entries| + 1) && Hashable(HashMap(entries + [e])) && Fits(HashMap(entries + [e]))
    ensures var r := DecValue(prefix + (h + EncEntries(entries + [e])) + suffix, |prefix|);
      && r.Done? && r.value.DMap? && ReadBack(e.key) in r.value.m && r.value.m[ReadBack(e.key)] == ReadBack(e.value)
      && forall k :: k in r.value.m ==> exists i :: 0 <= i < |entries + [e]| && k == ReadBack((entries + [e])[i].key)
  {
    hide DecValue, EntryHeader, Hashable, Fits, EncEntries, Insert, View;
    MapForms(h, entries + [e], prefix, suffix);
    InsertJoin(map[], entries, e);
    OnlyKeysSent(map[], entries + [e]);
  }

  lemma {:induction false} OnlyKeysSent(m: map<Datum, Datum>, entries: seq<Entry>)
    ensures forall k :: k in Insert(m, entries, true) ==>
              k in m || exists i :: 0 <= i < |entries| && k == ReadBack(entries[i].key)
    decreases |entries|
  {
    hide View;
    if entries != [] {
      var e := entries[0];
      var n := m[ReadBack(e.key) := ReadBack(e.value)];
      OnlyKeysSent(n, entries[1..]);
      forall k | k in Insert(m, entries, true)
        ensures k in m || exists i :: 0 <= i < |entries| && k == ReadBack(entries[i].key)
      {
        if k !in n {
          var i :| 0 <= i < |entries[1..]| && k == ReadBack(entries[1..][i].key);
          assert k == ReadBack(entries[i + 1].key);
        }
      }
    }
  }

  // ---------------------------------------------------------------------------------------------
  // What the packer chooses

  /** How many bytes each integer takes; with what they are read as, that leaves no choice of form. */
  lemma IntSizes(v: i64)
    ensures |EncInt(v)| == 1 <==> -32 <= v < 0x80
    ensures |EncInt(v)| == 2 <==> -0x80 <= v < -32
    ensures |EncInt(v)| == 3 <==> -0x8000 <= v < -0x80 || 0x80 <= v < 0x7fff
    ensures |EncInt(v)| == 5 <==> -0x8000_0000 <= v < -0x8000 || 0x7fff <= v < 0x7fff_ffff
    ensures |EncInt(v)| == 9 <==> v < -0x8000_0000 || 0x7fff_ffff <= v
    ensures v >= 0x80 && |EncInt(v)| == 3 ==> EncInt(v)[0] == 0xcd
    ensures v >= 0x80 && |EncInt(v)| == 5 ==> EncInt(v)[0] == 0xce
    ensures |EncInt(v)| == 9 ==> EncInt(v)[0] == 0xd3
  {
    hide BigEndian;
  }

  /** The packer takes the shortest header, but never one with a length of a single byte. */
  lemma HeaderSizes(n: nat)
    requires n < 0x1_0000_0000
    ensures ListHeader(ArrayHeader(n), n) && |ArrayHeader(n)| == if n < 16 then 1 else if n < 0x1_0000 then 3 else 5
    ensures EntryHeader(MapHeader(n), n) && |MapHeader(n)| == if n < 16 then 1 else if n < 0x1_0000 then 3 else 5
    ensures TextHeader(StrHeader(n), n) && |StrHeader(n)| == if n < 32 then 1 else if n < 0x1_0000 then 3 else 5
    ensures |StrHeader(n)| > 1 ==> StrHeader(n)[0] in {0xda, 0xdb}
  {
    hide BigEndian;
  }

  // ---------------------------------------------------------------------------------------------
  // Bins

  /** Between any prefix and suffix, `body` as the body of a bin with the particle code `code` is `a`. */
  predicate BinReadsAs(prefix: bytes, code: byte, body: bytes, suffix: bytes, a: Scalar)
  {
    DecParticle(prefix + body + suffix, |prefix|, code, |body|) == Done(DAtom(a), |prefix| + |body|)
  }

  /** The codes under which the kinds of values are stored. */
  lemma StoredCodes(v: Value)
    requires Storable(v)
    ensures ParticleType(v) == 20 <==> v.List?
    ensures ParticleType(v) == 19 <==> v.HashMap?
    ensures ParticleType(v) == 0 <==> v.Atom? && v.a.Nil?
    ensures ParticleType(v) == 1 <==> v.Atom? && v.a.Int?
    ensures ParticleType(v) == 2 <==> v.Atom? && v.a.F64?
    ensures ParticleType(v) == 3 <==> v.Atom? && v.a.Str?
    ensures ParticleType(v) == 4 <==> v.Atom? && v.a.Blob?
    ensures ParticleType(v) == 17 <==> v.Atom? && v.a.Bool?
    ensures ParticleType(v) == 18 <==> v.Atom? && v.a.HLL?
    ensures ParticleType(v) == 23 <==> v.Atom? && v.a.GeoJSON?
  {
  }

  /** What is written for the kinds whose reader is more tolerant than their writer. */
  lemma StoredBodies(v: Value)
    requires Storable(v) && v.Atom?
    ensures v.a.Nil? ==> ParticleBytes(v) == []
    ensures v.a.Bool? ==> ParticleBytes(v) == [if v.a.b then 1 else 0]
    ensures v.a.GeoJSON? ==> ParticleBytes(v) == [0, 0, 0] + v.a.json
  {
  }

  /** Bins of bytes: a blob is code 4 and a sketch code 18, as they are; a string is code 3 and must be valid. */
  lemma ByteBins(body: bytes, prefix: bytes, suffix: bytes)
    ensures BinReadsAs(prefix, 4, body, suffix, Blob(body))
    ensures BinReadsAs(prefix, 18, body, suffix, HLL(body))
    ensures ValidUtf8(body) ==> BinReadsAs(prefix, 3, body, suffix, Str(body))
    ensures !ValidUtf8(body) ==> DecParticle(prefix + body + suffix, |prefix|, 3, |body|) == Bad(|prefix|)
  {
    hide ValidUtf8, DecValue, DecInt, DecWide, DecGeo, Ascii;
    var d := prefix + body + suffix;
    assert d[|prefix|..|prefix| + |body|] == body;
    ByteBin(4, d, |prefix|, |body|);
    ByteBin(18, d, |prefix|, |body|);
    ByteBin(3, d, |prefix|, |body|);
  }

  lemma ByteBin(code: byte, d: bytes, at: nat, len: nat)
    requires code in {3, 4, 18} && at + len <= |d|
    ensures var s := d[at..at + len];
      DecParticle(d, at, code, len)
      == if code == 4 then Done(DAtom(Blob(s)), at + len) else if code == 18 then Done(DAtom(HLL(s)), at + len)
         else if ValidUtf8(s) then Done(DAtom(Str(s)), at + len) else Bad(at)
  {
    hide ValidUtf8, DecValue, DecInt, DecWide, DecGeo, Ascii;
  }

  /** Bins of numbers: code 1 is a two's complement integer of eight bytes, code 2 a float, code 17 a byte that is not 0. */
  lemma NumberBins(i: i64, bits: u64, b: byte, prefix: bytes, suffix: bytes)
    ensures BinReadsAs(prefix, 1, BigEndian(8, if i < 0 then 0x1_0000_0000_0000_0000 + i else i), suffix, Int(i))
    ensures BinReadsAs(prefix, 2, BigEndian(8, bits), suffix,
                       F64(if (bits / 0x10_0000_0000_0000) % 0x800 == 0x7ff && bits % 0x10_0000_0000_0000 != 0
                           then 0x7ff8_0000_0000_0000 else bits))
    ensures BinReadsAs(prefix, 17, [b], suffix, Bool(b != 0))
    ensures BinReadsAs(prefix, 17, [], suffix, Bool(false))
    ensures BinReadsAs(prefix, 0, [], suffix, Nil)
  {
    hide BigEndian, FromBigEndian, DecValue, DecGeo, Ascii, Pow256;
    WidthBounds();
    var v: nat := if i < 0 then 0x1_0000_0000_0000_0000 + i else i;
    BigEndianRoundTrip(8, v);
    BigEndianRoundTrip(8, bits);
    assert (prefix + BigEndian(8, v) + suffix)[|prefix|..|prefix| + 8] == BigEndian(8, v);
    assert (prefix + BigEndian(8, bits) + suffix)[|prefix|..|prefix| + 8] == BigEndian(8, bits);
  }

  /**
   A GeoJSON bin: a byte of flags, the number of cells, eight bytes for each cell, and then the text.  A number of
   cells that is negative as a 16-bit integer panics.
   */
  lemma GeoBin(flags: byte, cells: bytes, n: nat, text: bytes, prefix: bytes, suffix: bytes)
    requires |cells| == 8 * n && n < 0x1_0000
    ensures var body := [flags] + BigEndian(2, n) + cells + text;
      && (n < 0x8000 && ValidUtf8(text) ==> BinReadsAs(prefix, 23, body, suffix, GeoJSON(text)))
      && (n < 0x8000 && !ValidUtf8(text) ==>
            DecParticle(prefix + body + suffix, |prefix|, 23, |body|) == Bad(|prefix| + 3 + 8 * n))
      && (n >= 0x8000 ==> DecParticle(prefix + body + suffix, |prefix|, 23, |body|) == Panics)
  {
    hide BigEndian, FromBigEndian, ValidUtf8, DecValue, DecInt, DecWide, Ascii, Pow256, At;
    var front := [flags] + BigEndian(2, n);
    var body := front + cells + text;
    var d, at := prefix + body + suffix, |prefix|;
    Placed(prefix, body, suffix);
    AtSplit(d, at, front + cells, text);
    AtSplit(d, at, front, cells);
    AtSplit(d, at, [flags], BigEndian(2, n));
    AtBounds(d, at + 1, BigEndian(2, n));
    AtBounds(d, at + |front + cells|, text);
    ReadBackWidths(n);
  }

  /** A list bin begins like a list and a map bin like a map, or the reader panics; nothing at all is an empty one. */
  lemma CollectionBins(d: bytes, at: nat, len: nat)
    ensures d == [] ==> DecParticle(d, at, 20, len) == Done(DList([]), at)
    ensures d == [] ==> DecParticle(d, at, 19, len) == Done(DMap(map[]), at)
    ensures at < |d| && (d[at] < 0x90 || (d[at] > 0x9f && d[at] != 0xdc && d[at] != 0xdd)) ==>
              DecParticle(d, at, 20, len) == Panics
    ensures at < |d| && (d[at] < 0x80 || (d[at] > 0x8f && d[at] != 0xde && d[at] != 0xdf)) ==>
              DecParticle(d, at, 19, len) == Panics
  {
    hide DecValue, DecInt, DecWide, DecGeo, Ascii;
  }

  /** Codes that no particle has. */
  lemma UnknownBins(d: bytes, at: nat, code: byte, len: nat)
    requires code !in {0, 1, 2, 3, 4, 6, 17, 18, 19, 20, 21, 23}
    ensures DecParticle(d, at, code, len) == Panics
  {
    hide DecValue, DecInt, DecWide, DecGeo, Ascii;
  }
}
