module Options {
  datatype Option<+T> = None | Some(value: T)
}

/**
 Bytes, the integer widths of the wire protocol, and their big- and little-endian forms.
 */
module Bytes {
  type byte = x: int | 0 <= x < 0x100
  type bytes = seq<byte>

  type u16 = x: int | 0 <= x < 0x1_0000
  type u32 = x: int | 0 <= x < 0x1_0000_0000
  type u64 = x: int | 0 <= x < 0x1_0000_0000_0000_0000
  type i64 = x: int | -0x8000_0000_0000_0000 <= x < 0x8000_0000_0000_0000

  function Pow256(n: nat): (p: nat)
    ensures 0 < p
  {
    if n == 0 then 1 else 256 * Pow256(n - 1)
  }

  /** The `n`-byte big-endian form of `v` modulo 256^n: a truncating cast followed by a write. */
  function BigEndian(n: nat, v: nat): (s: bytes)
    ensures |s| == n
  {
    if n == 0 then [] else BigEndian(n - 1, v / 256) + [v % 256]
  }

  function FromBigEndian(s: bytes): nat
  {
    if s == [] then 0 else 256 * FromBigEndian(s[..|s| - 1]) + s[|s| - 1]
  }

  lemma {:induction false} BigEndianRoundTrip(n: nat, v: nat)
    requires v < Pow256(n)
    ensures FromBigEndian(BigEndian(n, v)) == v
  {
    if n > 0 {
      BigEndianRoundTrip(n - 1, v / 256);
      assert BigEndian(n, v)[..n - 1] == BigEndian(n - 1, v / 256);
    }
  }

  lemma {:induction false} FromBigEndianRoundTrip(s: bytes)
    ensures FromBigEndian(s) < Pow256(|s|)
    ensures BigEndian(|s|, FromBigEndian(s)) == s
  {
    if s != [] {
      FromBigEndianRoundTrip(s[..|s| - 1]);
    }
  }

  lemma WidthBounds()
    ensures Pow256(1) == 0x100
    ensures Pow256(2) == 0x1_0000
    ensures Pow256(4) == 0x1_0000_0000
    ensures Pow256(6) == 0x1_0000_0000_0000
    ensures Pow256(8) == 0x1_0000_0000_0000_0000
  {
    assert Pow256(3) == 0x100_0000;
    assert Pow256(5) == 0x100_0000_0000;
    assert Pow256(7) == 0x100_0000_0000_0000;
  }

  /** Reading back what was written, at the widths in use. */
  lemma ReadBackWidths(v: nat)
    ensures v < 0x100 ==> FromBigEndian(BigEndian(1, v)) == v
    ensures v < 0x1_0000 ==> FromBigEndian(BigEndian(2, v)) == v
    ensures v < 0x1_0000_0000 ==> FromBigEndian(BigEndian(4, v)) == v
    ensures v < 0x1_0000_0000_0000_0000 ==> FromBigEndian(BigEndian(8, v)) == v
  {
    WidthBounds();
    if v < 0x100 { BigEndianRoundTrip(1, v); }
    if v < 0x1_0000 { BigEndianRoundTrip(2, v); }
    if v < 0x1_0000_0000 { BigEndianRoundTrip(4, v); }
    if v < 0x1_0000_0000_0000_0000 { BigEndianRoundTrip(8, v); }
  }

  /** The two's complement reading of an unsigned value of a width with `modulus` values. */
  function ToSigned(v: nat, modulus: nat): int
  {
    if 2 * v >= modulus then v - modulus else v
  }

  function BitOr(a: byte, b: byte): byte
  {
    (a as bv8 | b as bv8) as int
  }

  function LittleEndian16(v: u16): (s: bytes)
    ensures |s| == 2
  {
    [v % 256, v / 256]
  }

  /** `d` with the bytes from `at` on overwritten by `b`. */
  function Splice(d: bytes, at: nat, b: bytes): (r: bytes)
    ensures |r| == |d|
  {
    if at + |b| <= |d| then d[..at] + b + d[at + |b|..] else d
  }

  /** Two adjacent writes are one write of the joined bytes. */
  lemma SpliceTwice(d: bytes, at: nat, a: bytes, b: bytes)
    requires at + |a| + |b| <= |d|
    ensures Splice(Splice(d, at, a), at + |a|, b) == Splice(d, at, a + b)
  {
    var once := Splice(d, at, a);
    assert once[..at + |a|] == d[..at] + a;
    assert once[at + |a| + |b|..] == d[at + |a| + |b|..];
  }

  lemma SpliceNothing(d: bytes, at: nat)
    requires at <= |d|
    ensures Splice(d, at, []) == d
  {
  }

  /** All parts, one after the other. */
  function Concat(parts: seq<bytes>): bytes
  {
    if parts == [] then [] else parts[0] + Concat(parts[1..])
  }

  lemma ConcatFront(parts: seq<bytes>)
    requires parts != []
    ensures Concat(parts) == parts[0] + Concat(parts[1..])
  {
  }

  lemma Associates(a: bytes, b: bytes, c: bytes)
    ensures (a + b) + c == a + (b + c)
  {
  }

  lemma {:induction false} ConcatJoin(a: seq<bytes>, b: seq<bytes>)
    ensures Concat(a + b) == Concat(a) + Concat(b)
  {
    if a == [] {
      assert a + b == b;
    } else {
      ConcatJoin(a[1..], b);
      assert (a + b)[1..] == a[1..] + b;
      Associates(a[0], Concat(a[1..]), Concat(b));
    }
  }

  /** What a loop over the parts has written after step `i`. */
  lemma ConcatStep(parts: seq<bytes>, i: nat)
    requires i < |parts|
    ensures Concat(parts[..i + 1]) == Concat(parts[..i]) + parts[i]
  {
    assert parts[..i + 1] == parts[..i] + [parts[i]];
    ConcatJoin(parts[..i], [parts[i]]);
    assert Concat([parts[i]]) == parts[i];
  }

  lemma ConcatSplit(parts: seq<bytes>, i: nat)
    requires i <= |parts|
    ensures Concat(parts) == Concat(parts[..i]) + Concat(parts[i..])
  {
    assert parts == parts[..i] + parts[i..];
    ConcatJoin(parts[..i], parts[i..]);
  }
}
