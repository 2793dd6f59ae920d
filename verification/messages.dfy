/**
 The message format of the server protocol, as a reader of it sees it: a header of 30 bytes, then
 fields and then operations, each with its length in front.
 */
module Messages {
  import opened Options
  import opened Bytes
  import opened CommandBuffer
  import opened RoundTrip

  /** The part of the header that the command chooses. */
  datatype Header = Header(readAttr: byte, writeAttr: byte, infoAttr: byte, generation: u32, expiration: u32)

  datatype Field = Field(code: byte, body: bytes)

  /** An operation is kept as the bytes behind its length. */
  datatype Command = Command(header: Header, fields: seq<Field>, ops: seq<bytes>)

  const HEADER_SIZE := MSG_TOTAL_HEADER_SIZE

  function FieldBytes(f: Field): bytes
  {
    BigEndian(4, |f.body| + 1) + ([f.code] + f.body)
  }

  function FieldParts(fields: seq<Field>): (parts: seq<bytes>)
    ensures |parts| == |fields|
  {
    seq(|fields|, i requires 0 <= i < |fields| => FieldBytes(fields[i]))
  }

  function FieldsBytes(fields: seq<Field>): bytes
  {
    Concat(FieldParts(fields))
  }

  function OpBytes(op: bytes): bytes
  {
    BigEndian(4, |op|) + op
  }

  function OpParts(ops: seq<bytes>): (parts: seq<bytes>)
    ensures |parts| == |ops|
  {
    seq(|ops|, i requires 0 <= i < |ops| => OpBytes(ops[i]))
  }

  function OpsBytes(ops: seq<bytes>): bytes
  {
    Concat(OpParts(ops))
  }

  lemma NothingInside()
    ensures FieldsBytes([]) == [] && OpsBytes([]) == []
  {
    assert FieldParts([]) == [] && OpParts([]) == [];
  }

  /** Protocol version 2, message type 3, and a length of 48 bits that leaves out these 8 bytes. */
  function Prelude(size: nat): (p: bytes)
    ensures |p| == 8
  {
    BigEndian(8, 0x0203_0000_0000_0000 + if size >= 8 then size - 8 else 0)
  }

  /** The bytes 8 to 29 of the message; counts are cast to 16 bits. */
  function HeaderTail(h: Header, fieldCount: nat, opCount: nat): (t: bytes)
    ensures |t| == 22
  {
    [22, h.readAttr, h.writeAttr, h.infoAttr, 0, 0]
    + (BigEndian(4, h.generation) + BigEndian(4, h.expiration) + [0, 0, 0, 0])
    + (BigEndian(2, fieldCount % 0x1_0000) + BigEndian(2, opCount % 0x1_0000))
  }

  function Body(c: Command): bytes
  {
    FieldsBytes(c.fields) + OpsBytes(c.ops)
  }

  function CommandSize(c: Command): nat
  {
    HEADER_SIZE + |Body(c)|
  }

  function CommandBytes(c: Command): (d: bytes)
    ensures |d| == CommandSize(c)
  {
    Prelude(CommandSize(c)) + HeaderTail(c.header, |c.fields|, |c.ops|) + Body(c)
  }

  // ---------------------------------------------------------------------------------------------
  // A generic reader

  /** read_msg_size at position 0: the low 48 bits. */
  function MsgSize(d: bytes): nat
    requires |d| >= 8
  {
    FromBigEndian(d[..8]) % 0x1_0000_0000_0000
  }

  function ReadFields(d: bytes, at: nat, n: nat): Option<(seq<Field>, nat)>
    decreases n
  {
    if n == 0 then Some(([], at))
    else if at + 4 > |d| then None
    else
      var len := FromBigEndian(d[at..at + 4]);
      if len == 0 || at + 4 + len > |d| then None
      else
        match ReadFields(d, at + 4 + len, n - 1)
        case None => None
        case Some((rest, end)) => Some(([Field(d[at + 4], d[at + 5..at + 4 + len])] + rest, end))
  }

  function ReadOps(d: bytes, at: nat, n: nat): Option<(seq<bytes>, nat)>
    decreases n
  {
    if n == 0 then Some(([], at))
    else if at + 4 > |d| then None
    else
      var len := FromBigEndian(d[at..at + 4]);
      if at + 4 + len > |d| then None
      else
        match ReadOps(d, at + 4 + len, n - 1)
        case None => None
        case Some((rest, end)) => Some(([d[at + 4..at + 4 + len]] + rest, end))
  }

  function FieldCount(d: bytes): nat
    requires |d| >= HEADER_SIZE
  {
    FromBigEndian(d[26..28])
  }

  function OpCount(d: bytes): nat
    requires |d| >= HEADER_SIZE
  {
    FromBigEndian(d[28..30])
  }

  function ReadHeader(d: bytes): Header
    requires |d| >= HEADER_SIZE
  {
    FromBigEndianRoundTrip(d[14..18]);
    FromBigEndianRoundTrip(d[18..22]);
    WidthBounds();
    Header(d[9], d[10], d[11], FromBigEndian(d[14..18]), FromBigEndian(d[18..22]))
  }

  /** The message, if walking its fields and operations ends exactly where the data and the length say. */
  function ReadCommand(d: bytes): Option<Command>
  {
    if |d| < HEADER_SIZE || MsgSize(d) != |d| - 8 then None
    else
      match ReadFields(d, HEADER_SIZE, FieldCount(d))
      case None => None
      case Some((fields, at)) =>
        match ReadOps(d, at, OpCount(d))
        case None => None
        case Some((ops, end)) => if end == |d| then Some(Command(ReadHeader(d), fields, ops)) else None
  }

  // ---------------------------------------------------------------------------------------------
  // Writing and then reading

  lemma FieldsFront(fields: seq<Field>)
    requires fields != []
    ensures FieldsBytes(fields) == FieldBytes(fields[0]) + FieldsBytes(fields[1..])
  {
    hide FieldBytes;
    assert FieldParts(fields)[1..] == FieldParts(fields[1..]);
  }

  lemma OpsFront(ops: seq<bytes>)
    requires ops != []
    ensures OpsBytes(ops) == OpBytes(ops[0]) + OpsBytes(ops[1..])
  {
    hide OpBytes;
    assert OpParts(ops)[1..] == OpParts(ops[1..]);
  }

  lemma FieldsJoin(a: seq<Field>, b: seq<Field>)
    ensures FieldsBytes(a + b) == FieldsBytes(a) + FieldsBytes(b)
  {
    hide FieldBytes;
    assert FieldParts(a + b) == FieldParts(a) + FieldParts(b);
    ConcatJoin(FieldParts(a), FieldParts(b));
  }

  lemma OneField(f: Field)
    ensures FieldsBytes([f]) == FieldBytes(f)
  {
    hide FieldBytes;
    FieldsFront([f]);
    assert [f][1..] == [] && FieldParts([]) == [];
  }

  lemma FieldRead(f: Field, d: bytes, at: nat)
    requires |f.body| + 1 < 0x1_0000_0000 && At(d, at, FieldBytes(f))
    ensures at + 4 + 1 + |f.body| <= |d|
    ensures FromBigEndian(d[at..at + 4]) == |f.body| + 1
    ensures d[at + 4] == f.code && d[at + 5..at + 5 + |f.body|] == f.body
  {
    hide BigEndian, FromBigEndian;
    ReadBackWidths(|f.body| + 1);
    AtSplit(d, at, BigEndian(4, |f.body| + 1), [f.code] + f.body);
    AtSplit(d, at + 4, [f.code], f.body);
    ByteAt(d, at + 4, f.code);
  }

  lemma {:induction false} FieldsRead(fields: seq<Field>, d: bytes, at: nat)
    requires At(d, at, FieldsBytes(fields)) && |d| < 0x1_0000_0000
    ensures ReadFields(d, at, |fields|) == Some((fields, at + |FieldsBytes(fields)|))
  {
    hide FieldBytes, At;
    if fields == [] {
      assert FieldParts(fields) == [];
    } else {
      var f := fields[0];
      FieldsFront(fields);
      AtSplit(d, at, FieldBytes(f), FieldsBytes(fields[1..]));
      FieldLength(f);
      AtBounds(d, at, FieldBytes(f));
      FieldRead(f, d, at);
      FieldsRead(fields[1..], d, at + |FieldBytes(f)|);
      assert [f] + fields[1..] == fields;
    }
  }

  lemma FieldLength(f: Field)
    ensures |FieldBytes(f)| == 5 + |f.body|
  {
  }

  lemma OpLength(op: bytes)
    ensures |OpBytes(op)| == 4 + |op|
  {
  }

  lemma {:induction false} OpsRead(ops: seq<bytes>, d: bytes, at: nat)
    requires At(d, at, OpsBytes(ops)) && |d| < 0x1_0000_0000
    ensures ReadOps(d, at, |ops|) == Some((ops, at + |OpsBytes(ops)|))
  {
    hide BigEndian, FromBigEndian;
    if ops == [] {
      assert OpParts(ops) == [];
    } else {
      var op := ops[0];
      OpsFront(ops);
      AtSplit(d, at, OpBytes(op), OpsBytes(ops[1..]));
      OpLength(op);
      ReadBackWidths(|op|);
      AtSplit(d, at, BigEndian(4, |op|), op);
      OpsRead(ops[1..], d, at + |OpBytes(op)|);
      assert [op] + ops[1..] == ops;
    }
  }

  lemma PreludeSize(size: nat)
    requires 8 <= size < 0x1_0000_0000
    ensures FromBigEndian(Prelude(size)) % 0x1_0000_0000_0000 == size - 8
  {
    hide BigEndian, FromBigEndian;
    ReadBackWidths(0x0203_0000_0000_0000 + (size - 8));
  }

  /** The header that a reader finds behind any 8 bytes, and the two counts. */
  lemma HeaderRead(d: bytes, h: Header, fieldCount: nat, opCount: nat)
    requires |d| >= HEADER_SIZE && At(d, 8, HeaderTail(h, fieldCount, opCount))
    ensures ReadHeader(d) == h
    ensures FieldCount(d) == fieldCount % 0x1_0000 && OpCount(d) == opCount % 0x1_0000
  {
    hide BigEndian, FromBigEndian;
    var flags := [22, h.readAttr, h.writeAttr, h.infoAttr, 0, 0];
    var gen, exp := BigEndian(4, h.generation), BigEndian(4, h.expiration);
    var fields, ops := BigEndian(2, fieldCount % 0x1_0000), BigEndian(2, opCount % 0x1_0000);
    AtSplit(d, 8, flags + (gen + exp + [0, 0, 0, 0]), fields + ops);
    AtSplit(d, 26, fields, ops);
    AtSplit(d, 8, flags, gen + exp + [0, 0, 0, 0]);
    AtSplit(d, 14, gen + exp, [0, 0, 0, 0]);
    AtSplit(d, 14, gen, exp);
    assert d[8..14] == flags;
    assert d[9] == d[8..14][1] && d[10] == d[8..14][2] && d[11] == d[8..14][3];
    ReadBackWidths(h.generation);
    ReadBackWidths(h.expiration);
    ReadBackWidths(fieldCount % 0x1_0000);
    ReadBackWidths(opCount % 0x1_0000);
  }

  lemma CommandLayout(c: Command)
    ensures var d := CommandBytes(c);
            && d[..8] == Prelude(CommandSize(c))
            && At(d, 8, HeaderTail(c.header, |c.fields|, |c.ops|))
            && At(d, HEADER_SIZE, FieldsBytes(c.fields))
            && At(d, HEADER_SIZE + |FieldsBytes(c.fields)|, OpsBytes(c.ops))
  {
    hide FieldsBytes, OpsBytes, Prelude, HeaderTail;
    var d := CommandBytes(c);
    AtSplit(d, HEADER_SIZE, FieldsBytes(c.fields), OpsBytes(c.ops));
  }

  /** Fewer operations than there are end earlier. */
  lemma {:induction false} OpsCutShort(ops: seq<bytes>, n: nat)
    requires n < |ops|
    ensures |OpsBytes(ops[..n])| < |OpsBytes(ops)|
    ensures OpsBytes(ops[..n]) == OpsBytes(ops)[..|OpsBytes(ops[..n])|]
  {
    hide OpBytes;
    assert OpParts(ops)[..n] == OpParts(ops[..n]);
    assert OpParts(ops)[n..] == OpParts(ops[n..]);
    ConcatSplit(OpParts(ops), n);
    OpsFront(ops[n..]);
    OpLength(ops[n]);
  }

  /**
   Framing.  The reader recovers the header, the fields and the operations and lands on the end of
   the data, exactly when the operations can be counted in 16 bits.
   */
  lemma FramingRoundTrip(c: Command)
    requires |c.fields| < 0x1_0000 && CommandSize(c) < 0x1_0000_0000
    ensures ReadCommand(CommandBytes(c)) == Some(c) <==> |c.ops| < 0x1_0000
  {
    hide FieldsBytes, OpsBytes, HeaderTail, ReadFields, ReadOps, Prelude, At, ReadHeader, FieldCount, OpCount,
         CommandBytes;
    var d := CommandBytes(c);
    var at := HEADER_SIZE + |FieldsBytes(c.fields)|;
    CommandLayout(c);
    PreludeSize(CommandSize(c));
    HeaderRead(d, c.header, |c.fields|, |c.ops|);
    FieldsRead(c.fields, d, HEADER_SIZE);
    if |c.ops| < 0x1_0000 {
      OpsRead(c.ops, d, at);
    } else {
      var n := |c.ops| % 0x1_0000;
      OpsCutShort(c.ops, n);
      var all, some := OpsBytes(c.ops), OpsBytes(c.ops[..n]);
      assert all == some + all[|some|..];
      AtSplit(d, at, some, all[|some|..]);
      OpsRead(c.ops[..n], d, at);
    }
  }

  // ---------------------------------------------------------------------------------------------
  // Changes that a writer makes to the finished message

  /** write_timeout puts a number of milliseconds into the last four bytes before the counts. */
  function WithTimeout(d: bytes, millis: nat): (r: bytes)
    ensures |r| == |d|
  {
    Splice(d, 22, BigEndian(4, millis))
  }

  lemma TimeoutKeepsCommand(d: bytes, millis: nat)
    requires |d| >= HEADER_SIZE
    ensures ReadCommand(WithTimeout(d, millis)) == ReadCommand(d)
  {
    hide BigEndian, FromBigEndian;
    var r := WithTimeout(d, millis);
    assert r[..22] == d[..22] && r[26..] == d[26..];
    assert r[..8] == r[..22][..8] == d[..22][..8] == d[..8];
    assert r[14..18] == r[..22][14..18] == d[..22][14..18] == d[14..18];
    assert r[18..22] == r[..22][18..22] == d[..22][18..22] == d[18..22];
    assert r[26..28] == r[26..][..2] == d[26..][..2] == d[26..28];
    assert r[28..30] == r[26..][2..4] == d[26..][2..4] == d[28..30];
    assert r[9] == r[..22][9] && r[10] == r[..22][10] && r[11] == r[..22][11];
    SameFieldsBehind(d, r, HEADER_SIZE, FieldCount(d));
    if ReadFields(d, HEADER_SIZE, FieldCount(d)).Some? {
      var at := ReadFields(d, HEADER_SIZE, FieldCount(d)).value.1;
      ReadFieldsForward(d, HEADER_SIZE, FieldCount(d));
      SameOpsBehind(d, r, at, OpCount(d));
    }
  }

  lemma {:induction false} ReadFieldsForward(d: bytes, at: nat, n: nat)
    requires ReadFields(d, at, n).Some?
    ensures ReadFields(d, at, n).value.1 >= at
    decreases n
  {
    if n > 0 {
      ReadFieldsForward(d, at + 4 + FromBigEndian(d[at..at + 4]), n - 1);
    }
  }

  /** Reading looks at nothing in front of where it starts. */
  lemma {:induction false} SameFieldsBehind(d: bytes, r: bytes, at: nat, n: nat)
    requires |d| == |r| >= 26 && at >= 26 && d[26..] == r[26..]
    ensures ReadFields(d, at, n) == ReadFields(r, at, n)
    decreases n
  {
    hide FromBigEndian;
    if n > 0 && at + 4 <= |d| {
      SameSlice(d, r, at, at + 4);
      var len := FromBigEndian(d[at..at + 4]);
      if len > 0 && at + 4 + len <= |d| {
        SameSlice(d, r, at + 5, at + 4 + len);
        assert d[at + 4] == d[26..][at - 22] && r[at + 4] == r[26..][at - 22];
        SameFieldsBehind(d, r, at + 4 + len, n - 1);
      }
    }
  }

  lemma {:induction false} SameOpsBehind(d: bytes, r: bytes, at: nat, n: nat)
    requires |d| == |r| >= 26 && at >= 26 && d[26..] == r[26..]
    ensures ReadOps(d, at, n) == ReadOps(r, at, n)
    decreases n
  {
    hide FromBigEndian;
    if n > 0 && at + 4 <= |d| {
      SameSlice(d, r, at, at + 4);
      var len := FromBigEndian(d[at..at + 4]);
      if at + 4 + len <= |d| {
        SameSlice(d, r, at + 4, at + 4 + len);
        SameOpsBehind(d, r, at + 4 + len, n - 1);
      }
    }
  }

  lemma SameSlice(d: bytes, r: bytes, lo: nat, hi: nat)
    requires |d| == |r| && 26 <= lo <= hi <= |d| && d[26..] == r[26..]
    ensures d[lo..hi] == r[lo..hi]
  {
    forall k | lo <= k < hi ensures d[k] == r[k] {
      assert d[k] == d[26..][k - 26] && r[k] == r[26..][k - 26];
    }
  }
}
