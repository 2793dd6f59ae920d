/**
 The message of a batch read (src/commands/buffer.rs, src/batch/batch_read.rs): one field that holds a row
 for each key, where a row may point to the header of the row before it.  The reader of the rows shows
 that this compression loses nothing.
 */
module Batches {
  import opened Options
  import opened Bytes
  import opened RoundTrip
  import opened Expressions
  import opened Messages
  import opened Commands
  import opened Headers
  import opened Told

  datatype BatchPolicy = BatchPolicy(base: BasePolicy, sendSetName: bool, allowInline: bool)

  datatype BatchRead = BatchRead(key: Key, bins: Bins)

  /** match_header */
  predicate MatchHeader(a: BatchRead, b: BatchRead, matchSet: bool)
  {
    a.key.namespace == b.key.namespace && (matchSet && a.key.setName == b.key.setName) && a.bins == b.bins
  }

  predicate ValidReads(batch: seq<BatchRead>, offsets: seq<nat>)
  {
    && (forall i :: 0 <= i < |batch| ==> |batch[i].key.digest| == 20)
    && (forall i :: 0 <= i < |offsets| ==> offsets[i] < |batch|)
  }

  function RowAttr(bins: Bins): byte
  {
    match bins
    case NoBins => BitOr(INFO1_READ, INFO1_NOBINDATA)
    case AllBins => BitOr(INFO1_READ, INFO1_GET_ALL)
    case SomeBins(_) => INFO1_READ
  }

  function RowFields(r: BatchRead, sendSet: bool): (fields: seq<Field>)
    ensures |fields| == if sendSet then 2 else 1
  {
    [Field(NAMESPACE, r.key.namespace)] + if sendSet then [Field(TABLE, r.key.setName)] else []
  }

  function RowOps(bins: Bins): seq<bytes>
  {
    if bins.SomeBins? then NameOps(bins.names) else []
  }

  function RowHeader(r: BatchRead, sendSet: bool): bytes
  {
    [RowAttr(r.bins)] + BigEndian(2, |RowFields(r, sendSet)|) + BigEndian(2, |RowOps(r.bins)| % 0x1_0000)
    + FieldsBytes(RowFields(r, sendSet)) + OpsBytes(RowOps(r.bins))
  }

  /** A row repeats the header of the row before it. */
  predicate Repeats(batch: seq<BatchRead>, offsets: seq<nat>, i: nat, sendSet: bool)
    requires ValidReads(batch, offsets) && i < |offsets|
  {
    i > 0 && MatchHeader(batch[offsets[i]], batch[offsets[i - 1]], sendSet)
  }

  function RowStart(batch: seq<BatchRead>, offsets: seq<nat>, i: nat): bytes
    requires ValidReads(batch, offsets) && i < |offsets|
  {
    BigEndian(4, offsets[i]) + batch[offsets[i]].key.digest
  }

  function RowEnd(batch: seq<BatchRead>, offsets: seq<nat>, i: nat, sendSet: bool): bytes
    requires ValidReads(batch, offsets) && i < |offsets|
  {
    if Repeats(batch, offsets, i, sendSet) then [1] else [0] + RowHeader(batch[offsets[i]], sendSet)
  }

  function RowBytes(batch: seq<BatchRead>, offsets: seq<nat>, i: nat, sendSet: bool): bytes
    requires ValidReads(batch, offsets) && i < |offsets|
  {
    RowStart(batch, offsets, i) + RowEnd(batch, offsets, i, sendSet)
  }

  function RowParts(batch: seq<BatchRead>, offsets: seq<nat>, sendSet: bool): (parts: seq<bytes>)
    requires ValidReads(batch, offsets)
    ensures |parts| == |offsets|
  {
    seq(|offsets|, i requires 0 <= i < |offsets| => RowBytes(batch, offsets, i, sendSet))
  }

  function BatchBody(p: BatchPolicy, batch: seq<BatchRead>, offsets: seq<nat>): bytes
    requires ValidReads(batch, offsets)
  {
    BigEndian(4, |offsets|) + [if p.allowInline then 1 else 0] + Concat(RowParts(batch, offsets, p.sendSetName))
  }

  function BatchCode(p: BatchPolicy): byte
  {
    if p.sendSetName then BATCH_INDEX_WITH_SET else BATCH_INDEX
  }

  function BatchCommand(p: BatchPolicy, batch: seq<BatchRead>, offsets: seq<nat>): Command
    requires ValidReads(batch, offsets) && ValidFilter(p.base.filter)
  {
    Command(PlainHeader(p.base.consistencyAll, BitOr(INFO1_READ, INFO1_BATCH), 0),
            FilterFields(p.base.filter) + [Field(BatchCode(p), BatchBody(p, batch, offsets))], [])
  }

  // ---------------------------------------------------------------------------------------------
  // What is sent

  /** The length of the batch field is taken from the end of the message, as if no field came before it. */
  function SentBody(p: BatchPolicy, batch: seq<BatchRead>, offsets: seq<nat>): (b: bytes)
    requires ValidReads(batch, offsets) && ValidFilter(p.base.filter)
    ensures |b| == |FieldsBytes(FilterFields(p.base.filter))| + 5 + |BatchBody(p, batch, offsets)|
  {
    var filter := FieldsBytes(FilterFields(p.base.filter));
    var body := BatchBody(p, batch, offsets);
    filter + (BigEndian(4, |filter| + |body| + 1) + ([BatchCode(p)] + body))
  }

  function SentMessage(p: BatchPolicy, batch: seq<BatchRead>, offsets: seq<nat>): bytes
    requires ValidReads(batch, offsets) && ValidFilter(p.base.filter)
  {
    var c := BatchCommand(p, batch, offsets);
    Prelude(HEADER_SIZE + |SentBody(p, batch, offsets)|) + HeaderTail(c.header, |c.fields|, 0) + SentBody(p, batch, offsets)
  }

  lemma BatchSize(p: BatchPolicy, batch: seq<BatchRead>, offsets: seq<nat>)
    requires ValidReads(batch, offsets) && ValidFilter(p.base.filter)
    ensures CommandSize(BatchCommand(p, batch, offsets)) == HEADER_SIZE + |SentBody(p, batch, offsets)|
  {
    hide FieldsBytes, FieldBytes, BatchBody, FilterFields;
    var f := Field(BatchCode(p), BatchBody(p, batch, offsets));
    FieldsJoin(FilterFields(p.base.filter), [f]);
    OneField(f);
    FieldLength(f);
    assert OpParts([]) == [];
  }

  /** Without a filter the message is the command. */
  lemma SentPlain(p: BatchPolicy, batch: seq<BatchRead>, offsets: seq<nat>)
    requires ValidReads(batch, offsets) && p.base.filter.None?
    ensures SentMessage(p, batch, offsets) == CommandBytes(BatchCommand(p, batch, offsets))
  {
    hide FieldsBytes, FieldBytes, BatchBody;
    var c := BatchCommand(p, batch, offsets);
    BatchSize(p, batch, offsets);
    assert FieldParts([]) == [] && OpParts([]) == [];
    assert FieldsBytes([]) == [] by {
      NothingInside();
    }
    assert c.fields == [Field(BatchCode(p), BatchBody(p, batch, offsets))];
    OneField(c.fields[0]);
    assert SentBody(p, batch, offsets) == FieldBytes(c.fields[0]) by {
      FieldIs(c.fields[0]);
    }
    assert Body(c) == SentBody(p, batch, offsets) + [] by {
      NothingInside();
    }
  }

  lemma FieldIs(f: Field)
    ensures FieldBytes(f) == BigEndian(4, |f.body| + 1) + ([f.code] + f.body)
  {
  }

  /** With a filter in front, the length of the batch field reaches behind the end of the message. */
  lemma SentFiltered(p: BatchPolicy, batch: seq<BatchRead>, offsets: seq<nat>)
    requires ValidReads(batch, offsets) && ValidFilter(p.base.filter) && p.base.filter.Some?
    requires |SentMessage(p, batch, offsets)| < 0x1_0000_0000
    ensures ReadCommand(SentMessage(p, batch, offsets)) == None
  {
    hide FieldsBytes, FieldBytes, BatchBody, HeaderTail, Prelude, BigEndian, FromBigEndian, At, EncExp, Packable;
    hide FieldCount, OpCount, ReadHeader;
    var d, c := SentMessage(p, batch, offsets), BatchCommand(p, batch, offsets);
    var f := FilterFields(p.base.filter)[0];
    var filter, body := FieldsBytes([f]), BatchBody(p, batch, offsets);
    var len := |filter| + |body| + 1;
    var rest := BigEndian(4, len) + ([BatchCode(p)] + body);
    var head := Prelude(|d|) + HeaderTail(c.header, 2, 0);
    OneField(f);
    FieldLength(f);
    assert d == head + (filter + rest);
    AtEnd(head, filter + rest);
    AtSplit(d, HEADER_SIZE, filter, rest);
    AtSplit(d, HEADER_SIZE + |filter|, BigEndian(4, len), [BatchCode(p)] + body);
    ReadBackWidths(len);
    assert At(d, 8, HeaderTail(c.header, 2, 0)) by {
      MiddleAt(Prelude(|d|), HeaderTail(c.header, 2, 0), filter + rest);
    }
    HeaderRead(d, c.header, 2, 0);
    FieldRead(f, d, HEADER_SIZE);
    AtBounds(d, HEADER_SIZE + |filter|, BigEndian(4, len));
    SecondFieldOverruns(d, f, len);
  }

  lemma AtEnd(a: bytes, b: bytes)
    ensures At(a + b, |a|, b)
  {
  }

  lemma MiddleAt(a: bytes, b: bytes, c: bytes)
    ensures At(a + b + c, |a|, b)
  {
    assert (a + b + c)[|a|..|a| + |b|] == b;
  }

  lemma SecondFieldOverruns(d: bytes, f: Field, len: nat)
    requires HEADER_SIZE + |FieldBytes(f)| + 4 <= |d| < HEADER_SIZE + |FieldBytes(f)| + 4 + len
    requires FromBigEndian(d[HEADER_SIZE..HEADER_SIZE + 4]) == |f.body| + 1
    requires FromBigEndian(d[HEADER_SIZE + |FieldBytes(f)|..HEADER_SIZE + |FieldBytes(f)| + 4]) == len
    requires FieldCount(d) == 2
    ensures ReadCommand(d) == None
  {
    hide FromBigEndian, BigEndian;
    FieldLength(f);
    assert ReadFields(d, HEADER_SIZE + |FieldBytes(f)|, 1) == None;
    assert ReadFields(d, HEADER_SIZE, 2) == None;
  }

  /** A batch read can be read back exactly if it has no filter. */
  lemma BatchFraming(p: BatchPolicy, batch: seq<BatchRead>, offsets: seq<nat>)
    requires ValidReads(batch, offsets) && ValidFilter(p.base.filter)
    requires |SentMessage(p, batch, offsets)| < 0x1_0000_0000
    ensures ReadCommand(SentMessage(p, batch, offsets)) == Some(BatchCommand(p, batch, offsets)) <==> p.base.filter.None?
  {
    hide FieldsBytes, FieldBytes, BatchBody, HeaderTail, Prelude, CommandBytes, ReadCommand, Packable, SentMessage;
    if p.base.filter.None? {
      SentPlain(p, batch, offsets);
      FramingRoundTrip(BatchCommand(p, batch, offsets));
    } else {
      SentFiltered(p, batch, offsets);
    }
  }

  // ---------------------------------------------------------------------------------------------
  // A reader of the rows

  /** What a row asks for. */
  datatype Row = Row(index: nat, digest: bytes, namespace: bytes, setName: Option<bytes>, bins: Bins)

  datatype RowHead = RowHead(attr: byte, fields: seq<Field>, ops: seq<bytes>)

  function ReadHead(d: bytes, at: nat): Option<(RowHead, nat)>
  {
    if at + 5 > |d| then None
    else
      match ReadFields(d, at + 5, FromBigEndian(d[at + 1..at + 3]))
      case None => None
      case Some((fields, mid)) =>
        match ReadOps(d, mid, FromBigEndian(d[at + 3..at + 5]))
        case None => None
        case Some((ops, end)) => Some((RowHead(d[at], fields, ops), end))
  }

  /** The name in an operation that reads a bin, by its length byte. */
  function OpName(op: bytes): bytes
  {
    if |op| < 4 || 4 + op[3] > |op| || op[0] != 1 || op[1] != 0 || op[2] != 0 then [] else op[4..4 + op[3]]
  }

  function Selection(h: RowHead): Bins
  {
    if h.attr == 1 + 32 then NoBins
    else if h.attr == 1 + 2 then AllBins
    else SomeBins(seq(|h.ops|, i requires 0 <= i < |h.ops| => OpName(h.ops[i])))
  }

  function HeadRow(index: nat, digest: bytes, h: RowHead): Row
  {
    Row(index, digest,
        if |h.fields| >= 1 && h.fields[0].code == 0 then h.fields[0].body else [],
        if |h.fields| >= 2 && h.fields[1].code == 1 then Some(h.fields[1].body) else None,
        Selection(h))
  }

  /** Flag 0 announces a header, flag 1 stands for the header of the row before. */
  function ReadRows(d: bytes, at: nat, n: nat, before: Option<RowHead>): Option<(seq<Row>, nat)>
    decreases n
  {
    if n == 0 then Some(([], at))
    else if at + 25 > |d| then None
    else
      var found := if d[at + 24] == 0 then ReadHead(d, at + 25)
                   else if d[at + 24] == 1 && before.Some? then Some((before.value, at + 25))
                   else None;
      match found
      case None => None
      case Some((h, next)) =>
        match ReadRows(d, next, n - 1, Some(h))
        case None => None
        case Some((rest, end)) =>
          Some(([HeadRow(FromBigEndian(d[at..at + 4]), d[at + 4..at + 24], h)] + rest, end))
  }

  /** The rows of a batch read, if they fill its last field. */
  function ReadBatch(c: Command): Option<seq<Row>>
  {
    if c.fields == [] then None
    else
      var d := c.fields[|c.fields| - 1].body;
      if |d| < 5 then None
      else
        match ReadRows(d, 5, FromBigEndian(d[..4]), None)
        case None => None
        case Some((rows, end)) => if end == |d| then Some(rows) else None
  }

  // ---------------------------------------------------------------------------------------------
  // Nothing is lost

  function AskedRow(r: BatchRead, index: nat, sendSet: bool): Row
  {
    Row(index, r.key.digest, r.key.namespace, if sendSet then Some(r.key.setName) else None, r.bins)
  }

  function AskedRows(batch: seq<BatchRead>, offsets: seq<nat>, sendSet: bool): seq<Row>
    requires ValidReads(batch, offsets)
  {
    seq(|offsets|, i requires 0 <= i < |offsets| => AskedRow(batch[offsets[i]], offsets[i], sendSet))
  }

  predicate ShortNames(bins: Bins)
  {
    bins.SomeBins? ==> forall i :: 0 <= i < |bins.names| ==> |bins.names[i]| < 0x100
  }

  /** The names as their length bytes have them. */
  function CutNames(bins: Bins): Bins
  {
    match bins
    case SomeBins(names) =>
      SomeBins(seq(|names|, i requires 0 <= i < |names| => names[i][..|names[i]| % 0x100]))
    case _ => bins
  }

  lemma CutNothing(bins: Bins)
    ensures CutNames(bins) == bins <==> ShortNames(bins)
  {
    if bins.SomeBins? {
      if ShortNames(bins) {
        forall i | 0 <= i < |bins.names| ensures CutNames(bins).names[i] == bins.names[i] {
          assert |bins.names[i]| % 0x100 == |bins.names[i]|;
        }
        assert CutNames(bins).names == bins.names;
      } else {
        var i :| 0 <= i < |bins.names| && |bins.names[i]| >= 0x100;
        assert |CutNames(bins).names[i]| < 0x100;
      }
    }
  }

  function HeadOf(r: BatchRead, sendSet: bool): RowHead
  {
    RowHead(RowAttr(r.bins), RowFields(r, sendSet), RowOps(r.bins))
  }

  predicate Countable(bins: Bins)
  {
    bins.SomeBins? ==> |bins.names| < 0x1_0000
  }

  /** The operations of a header, as far as their 16-bit count goes. */
  function CountedOps(bins: Bins): (ops: seq<bytes>)
    ensures |ops| == |RowOps(bins)| % 0x1_0000
  {
    RowOps(bins)[..|RowOps(bins)| % 0x1_0000]
  }

  lemma OpsStart(ops: seq<bytes>, n: nat, d: bytes, at: nat)
    requires n <= |ops| && At(d, at, OpsBytes(ops))
    ensures At(d, at, OpsBytes(ops[..n]))
  {
    hide OpsBytes, At;
    if n < |ops| {
      OpsCutShort(ops, n);
      var all, some := OpsBytes(ops), OpsBytes(ops[..n]);
      assert all == some + all[|some|..];
      AtSplit(d, at, some, all[|some|..]);
    } else {
      assert ops[..n] == ops;
    }
  }

  lemma HeadRead(r: BatchRead, sendSet: bool, d: bytes, at: nat)
    requires At(d, at, RowHeader(r, sendSet)) && |d| < 0x1_0000_0000
    ensures ReadHead(d, at).Some?
    ensures ReadHead(d, at).value.0 == RowHead(RowAttr(r.bins), RowFields(r, sendSet), CountedOps(r.bins))
    ensures Countable(r.bins) ==> ReadHead(d, at).value.1 == at + |RowHeader(r, sendSet)|
  {
    hide BigEndian, FromBigEndian, FieldsBytes, OpsBytes, RowAttr, RowFields, RowOps, ReadFields, ReadOps, At;
    var attr, nf, no := [RowAttr(r.bins)], BigEndian(2, |RowFields(r, sendSet)|), BigEndian(2, |RowOps(r.bins)| % 0x1_0000);
    var fields, ops := FieldsBytes(RowFields(r, sendSet)), OpsBytes(RowOps(r.bins));
    AtSplit(d, at, attr + nf + no + fields, ops);
    AtSplit(d, at, attr + nf + no, fields);
    AtSplit(d, at, attr + nf, no);
    AtSplit(d, at, attr, nf);
    AtBounds(d, at, attr);
    AtBounds(d, at + 1, nf);
    AtBounds(d, at + 3, no);
    ReadBackWidths(|RowFields(r, sendSet)|);
    ReadBackWidths(|RowOps(r.bins)| % 0x1_0000);
    assert d[at] == d[at..at + 1][0];
    FieldsRead(RowFields(r, sendSet), d, at + 5);
    OpsStart(RowOps(r.bins), |CountedOps(r.bins)|, d, at + 5 + |fields|);
    OpsRead(CountedOps(r.bins), d, at + 5 + |fields|);
    if Countable(r.bins) {
      AllCounted(r.bins);
    }
  }

  lemma AllCounted(bins: Bins)
    requires Countable(bins)
    ensures CountedOps(bins) == RowOps(bins)
  {
    assert |RowOps(bins)| % 0x1_0000 == |RowOps(bins)|;
  }

  lemma HeadMeaning(r: BatchRead, sendSet: bool, index: nat)
    ensures HeadRow(index, r.key.digest, HeadOf(r, sendSet)) == AskedRow(r, index, sendSet).(bins := CutNames(r.bins))
  {
    assert BitOr(INFO1_READ, INFO1_NOBINDATA) == 33 && BitOr(INFO1_READ, INFO1_GET_ALL) == 3;
    hide BitOr;
    var h := HeadOf(r, sendSet);
    if r.bins.SomeBins? {
      var names := r.bins.names;
      forall i | 0 <= i < |names| ensures OpName(NameOps(names)[i]) == names[i][..|names[i]| % 0x100] {
        NameInOp(names[i]);
      }
      assert Selection(h).names == CutNames(r.bins).names;
    }
    assert Selection(h) == CutNames(r.bins);
  }

  lemma NameInOp(name: bytes)
    ensures OpName(NameOp(name)) == name[..|name| % 0x100]
  {
  }

  /** More operations than can be counted are read as others than were asked for. */
  lemma UncountedDiffers(r: BatchRead, sendSet: bool, index: nat)
    requires !Countable(r.bins)
    ensures HeadRow(index, r.key.digest, RowHead(RowAttr(r.bins), RowFields(r, sendSet), CountedOps(r.bins))).bins != r.bins
  {
    assert BitOr(INFO1_READ, INFO1_NOBINDATA) == 33 && BitOr(INFO1_READ, INFO1_GET_ALL) == 3;
    hide BitOr;
    var h := RowHead(RowAttr(r.bins), RowFields(r, sendSet), CountedOps(r.bins));
    assert |Selection(h).names| < 0x1_0000;
  }

  /** A row that can be read as it was asked for: its index, its number of names and their lengths fit their fields. */
  predicate Readable(batch: seq<BatchRead>, offsets: seq<nat>, i: nat)
    requires ValidReads(batch, offsets) && i < |offsets|
  {
    offsets[i] < 0x1_0000_0000 && Countable(batch[offsets[i]].bins) && ShortNames(batch[offsets[i]].bins)
  }

  ghost predicate ReadableFrom(batch: seq<BatchRead>, offsets: seq<nat>, i: nat)
    requires ValidReads(batch, offsets) && i <= |offsets|
  {
    forall k :: i <= k < |offsets| ==> Readable(batch, offsets, k)
  }

  lemma IndexRead(v: nat, d: bytes, at: nat)
    requires At(d, at, BigEndian(4, v))
    ensures at + 4 <= |d| && (FromBigEndian(d[at..at + 4]) == v <==> v < 0x1_0000_0000)
  {
    hide BigEndian, FromBigEndian, Pow256;
    AtBounds(d, at, BigEndian(4, v));
    ReadBackWidths(v);
    FromBigEndianRoundTrip(d[at..at + 4]);
    WidthBounds();
  }

  /** A row is found with its index and digest, and with flag 1 or with a header of its own. */
  lemma RowRead(batch: seq<BatchRead>, offsets: seq<nat>, sendSet: bool, i: nat, d: bytes, at: nat)
    requires ValidReads(batch, offsets) && i < |offsets| && |d| < 0x1_0000_0000
    requires At(d, at, RowBytes(batch, offsets, i, sendSet))
    ensures at + 25 <= |d| && (FromBigEndian(d[at..at + 4]) == offsets[i] <==> offsets[i] < 0x1_0000_0000)
    ensures d[at + 4..at + 24] == batch[offsets[i]].key.digest
    ensures d[at + 24] == if i > 0 && sendSet && batch[offsets[i]].key.namespace == batch[offsets[i - 1]].key.namespace
                              && batch[offsets[i]].key.setName == batch[offsets[i - 1]].key.setName
                              && batch[offsets[i]].bins == batch[offsets[i - 1]].bins then 1 else 0
    ensures Repeats(batch, offsets, i, sendSet) ==> d[at + 24] == 1 && |RowBytes(batch, offsets, i, sendSet)| == 25
    ensures !Repeats(batch, offsets, i, sendSet) ==>
      var r := batch[offsets[i]];
      && d[at + 24] == 0 && ReadHead(d, at + 25).Some?
      && ReadHead(d, at + 25).value.0 == RowHead(RowAttr(r.bins), RowFields(r, sendSet), CountedOps(r.bins))
      && (Countable(r.bins) ==> ReadHead(d, at + 25).value.1 == at + |RowBytes(batch, offsets, i, sendSet)|)
  {
    hide BigEndian, FromBigEndian, RowHeader, ReadHead, At, Countable, Repeats, RowAttr, RowFields, CountedOps;
    var r := batch[offsets[i]];
    var index, digest := BigEndian(4, offsets[i]), r.key.digest;
    AtSplit(d, at, RowStart(batch, offsets, i), RowEnd(batch, offsets, i, sendSet));
    AtSplit(d, at, index, digest);
    AtBounds(d, at + 4, digest);
    IndexRead(offsets[i], d, at);
    RepeatsExactly(batch, offsets, i, sendSet);
    if Repeats(batch, offsets, i, sendSet) {
      ByteAt(d, at + 24, 1);
    } else {
      AtSplit(d, at + 24, [0], RowHeader(r, sendSet));
      ByteAt(d, at + 24, 0);
      HeadRead(r, sendSet, d, at + 25);
    }
  }

  /** A row repeats the one before it only if set names are sent, and then exactly if both ask for the same of one set. */
  lemma RepeatsExactly(batch: seq<BatchRead>, offsets: seq<nat>, i: nat, sendSet: bool)
    requires ValidReads(batch, offsets) && i < |offsets|
    ensures Repeats(batch, offsets, i, sendSet) <==>
            i > 0 && sendSet && batch[offsets[i]].key.namespace == batch[offsets[i - 1]].key.namespace
            && batch[offsets[i]].key.setName == batch[offsets[i - 1]].key.setName
            && batch[offsets[i]].bins == batch[offsets[i - 1]].bins
  {
  }

  function AskedFrom(batch: seq<BatchRead>, offsets: seq<nat>, sendSet: bool, i: nat): (rows: seq<Row>)
    requires ValidReads(batch, offsets) && i <= |offsets|
    ensures |rows| == |offsets| - i
  {
    AskedRows(batch, offsets, sendSet)[i..]
  }

  function HeadBefore(batch: seq<BatchRead>, offsets: seq<nat>, sendSet: bool, i: nat): Option<RowHead>
    requires ValidReads(batch, offsets) && i <= |offsets|
  {
    if i == 0 then None else Some(HeadOf(batch[offsets[i - 1]], sendSet))
  }

  /** What the reader does with row `i`, whose predecessor it has read well. */
  lemma RowStep(batch: seq<BatchRead>, offsets: seq<nat>, sendSet: bool, i: nat, d: bytes, at: nat)
    requires ValidReads(batch, offsets) && i < |offsets| && |d| < 0x1_0000_0000
    requires i > 0 ==> Countable(batch[offsets[i - 1]].bins)
    requires At(d, at, RowBytes(batch, offsets, i, sendSet))
    ensures var r, asked := ReadRows(d, at, |offsets| - i, HeadBefore(batch, offsets, sendSet, i)),
                            AskedRow(batch[offsets[i]], offsets[i], sendSet);
      && (r.Some? ==> r.value.0 != [] && (r.value.0[0] == asked <==> Readable(batch, offsets, i)))
      && (Readable(batch, offsets, i) ==>
            var rest := ReadRows(d, at + |RowBytes(batch, offsets, i, sendSet)|, |offsets| - i - 1,
                                 HeadBefore(batch, offsets, sendSet, i + 1));
            r == if rest.Some? then Some(([asked] + rest.value.0, rest.value.1)) else None)
  {
    hide FromBigEndian, RowBytes, At, ReadHead, HeadRow, CutNames, AskedRow, RowAttr, RowFields, CountedOps, RowOps,
         Countable, ShortNames, MatchHeader, HeadOf;
    var r := batch[offsets[i]];
    RowRead(batch, offsets, sendSet, i, d, at);
    RowMeaning(r, sendSet, offsets[i], FromBigEndian(d[at..at + 4]));
    if Repeats(batch, offsets, i, sendSet) {
      SameHead(batch, offsets, sendSet, i);
    }
  }

  /** The row that is made of the header as it is read, and when it is the one that was asked for. */
  lemma RowMeaning(r: BatchRead, sendSet: bool, offset: nat, index: nat)
    requires index == offset <==> offset < 0x1_0000_0000
    ensures Countable(r.bins) ==> HeadOf(r, sendSet) == RowHead(RowAttr(r.bins), RowFields(r, sendSet), CountedOps(r.bins))
    ensures HeadRow(index, r.key.digest, RowHead(RowAttr(r.bins), RowFields(r, sendSet), CountedOps(r.bins)))
            == AskedRow(r, offset, sendSet)
       <==> offset < 0x1_0000_0000 && Countable(r.bins) && ShortNames(r.bins)
  {
    hide RowAttr, RowFields, CountedOps, RowOps, Countable, ShortNames, CutNames, Selection;
    if Countable(r.bins) {
      AllCounted(r.bins);
      HeadMeaning(r, sendSet, index);
      CutNothing(r.bins);
    } else {
      UncountedDiffers(r, sendSet, index);
    }
  }

  /** The rows from `i` on are read as they were asked for exactly if all of them can be. */
  lemma {:induction false} RowsRead(batch: seq<BatchRead>, offsets: seq<nat>, sendSet: bool, i: nat, d: bytes, at: nat)
    requires ValidReads(batch, offsets) && i <= |offsets| && |d| < 0x1_0000_0000
    requires i > 0 ==> Countable(batch[offsets[i - 1]].bins)
    requires At(d, at, Concat(RowParts(batch, offsets, sendSet)[i..]))
    ensures var r := ReadRows(d, at, |offsets| - i, HeadBefore(batch, offsets, sendSet, i));
      && (r.Some? && r.value.0 == AskedFrom(batch, offsets, sendSet, i) <==> ReadableFrom(batch, offsets, i))
      && (ReadableFrom(batch, offsets, i) ==> r.value.1 == at + |Concat(RowParts(batch, offsets, sendSet)[i..])|)
    decreases |offsets| - i
  {
    hide RowBytes, At, AskedRow, Countable, Readable, ReadRows, HeadBefore, ShortNames;
    var parts := RowParts(batch, offsets, sendSet);
    if i == |offsets| {
      assert parts[i..] == [] && AskedFrom(batch, offsets, sendSet, i) == [];
      NoRows(d, at, HeadBefore(batch, offsets, sendSet, i));
    } else {
      assert parts[i..][1..] == parts[i + 1..];
      AtSplit(d, at, parts[i], Concat(parts[i + 1..]));
      RowStep(batch, offsets, sendSet, i, d, at);
      AskedStep(batch, offsets, sendSet, i);
      ReadableStep(batch, offsets, i);
      if Readable(batch, offsets, i) {
        CountableIfReadable(batch, offsets, i);
        RowsRead(batch, offsets, sendSet, i + 1, d, at + |parts[i]|);
        var rest := ReadRows(d, at + |parts[i]|, |offsets| - i - 1, HeadBefore(batch, offsets, sendSet, i + 1));
        if rest.Some? {
          SameTail(AskedRow(batch[offsets[i]], offsets[i], sendSet), rest.value.0, AskedFrom(batch, offsets, sendSet, i + 1));
        }
      }
    }
  }

  lemma SameTail(row: Row, x: seq<Row>, y: seq<Row>)
    ensures [row] + x == [row] + y <==> x == y
  {
    assert ([row] + x)[1..] == x && ([row] + y)[1..] == y;
  }

  lemma CountableIfReadable(batch: seq<BatchRead>, offsets: seq<nat>, i: nat)
    requires ValidReads(batch, offsets) && i < |offsets| && Readable(batch, offsets, i)
    ensures Countable(batch[offsets[i]].bins)
  {
  }

  lemma NoRows(d: bytes, at: nat, before: Option<RowHead>)
    ensures ReadRows(d, at, 0, before) == Some(([], at))
  {
  }

  lemma AskedStep(batch: seq<BatchRead>, offsets: seq<nat>, sendSet: bool, i: nat)
    requires ValidReads(batch, offsets) && i < |offsets|
    ensures AskedFrom(batch, offsets, sendSet, i)
         == [AskedRow(batch[offsets[i]], offsets[i], sendSet)] + AskedFrom(batch, offsets, sendSet, i + 1)
  {
    hide AskedRow;
  }

  lemma ReadableStep(batch: seq<BatchRead>, offsets: seq<nat>, i: nat)
    requires ValidReads(batch, offsets) && i < |offsets|
    ensures ReadableFrom(batch, offsets, i) <==> Readable(batch, offsets, i) && ReadableFrom(batch, offsets, i + 1)
  {
    hide Readable;
  }

  lemma SameHead(batch: seq<BatchRead>, offsets: seq<nat>, sendSet: bool, i: nat)
    requires ValidReads(batch, offsets) && i < |offsets| && Repeats(batch, offsets, i, sendSet)
    ensures HeadBefore(batch, offsets, sendSet, i) == Some(HeadOf(batch[offsets[i]], sendSet))
    ensures batch[offsets[i]].bins == batch[offsets[i - 1]].bins
  {
  }

  /**
   The compression loses nothing: the rows that a reader finds are the keys and the bins that were
   asked for, in order, exactly if every index, number of names and length of a name fits its field.
   */
  lemma CompressionLosesNothing(p: BatchPolicy, batch: seq<BatchRead>, offsets: seq<nat>)
    requires ValidReads(batch, offsets) && ValidFilter(p.base.filter)
    requires |BatchBody(p, batch, offsets)| < 0x1_0000_0000
    ensures ReadBatch(BatchCommand(p, batch, offsets)) == Some(AskedRows(batch, offsets, p.sendSetName))
       <==> forall i :: 0 <= i < |offsets| ==> Readable(batch, offsets, i)
  {
    hide BigEndian, FromBigEndian, RowParts, At, ReadRows, Readable, Concat, FilterFields, AskedRows;
    var d, rows := BatchBody(p, batch, offsets), Concat(RowParts(batch, offsets, p.sendSetName));
    var count := BigEndian(4, |offsets|);
    assert RowParts(batch, offsets, p.sendSetName)[0..] == RowParts(batch, offsets, p.sendSetName);
    assert AskedFrom(batch, offsets, p.sendSetName, 0) == AskedRows(batch, offsets, p.sendSetName);
    AtEnd(count + [if p.allowInline then 1 else 0], rows);
    RowsFit(p, batch, offsets);
    assert d[..4] == count;
    ReadBackWidths(|offsets|);
    RowsRead(batch, offsets, p.sendSetName, 0, d, 5);
  }

  /** Each row takes 25 bytes or more, so their number fits when their bytes do. */
  lemma RowsFit(p: BatchPolicy, batch: seq<BatchRead>, offsets: seq<nat>)
    requires ValidReads(batch, offsets)
    ensures |offsets| <= |BatchBody(p, batch, offsets)|
  {
    hide RowBytes;
    forall i | 0 <= i < |offsets| ensures |RowParts(batch, offsets, p.sendSetName)[i]| > 0 {
      RowNotEmpty(batch, offsets, i, p.sendSetName);
    }
    PartsFit(RowParts(batch, offsets, p.sendSetName));
  }

  lemma RowNotEmpty(batch: seq<BatchRead>, offsets: seq<nat>, i: nat, sendSet: bool)
    requires ValidReads(batch, offsets) && i < |offsets|
    ensures |RowBytes(batch, offsets, i, sendSet)| > 0
  {
  }

  lemma {:induction false} PartsFit(parts: seq<bytes>)
    requires forall i :: 0 <= i < |parts| ==> |parts[i]| > 0
    ensures |parts| <= |Concat(parts)|
  {
    if parts != [] {
      PartsFit(parts[1..]);
    }
  }

  // ---------------------------------------------------------------------------------------------
  // The whole message

  /**
   What a batch read tells: the batch bit in its header; a filter first, if there is one; and, if there is none, one field
   with the number of rows, whether the server may answer inline, and the rows that were asked for.
   */
  predicate TellsBatch(d: bytes, p: BatchPolicy, batch: seq<BatchRead>, offsets: seq<nat>)
    requires ValidReads(batch, offsets) && ValidFilter(p.base.filter)
  {
    && Framed(d) && TellsAttributes(d, p.base.consistencyAll, 1 + 8, 0)
    && FromBigEndian(d[26..28]) == (if p.base.filter.Some? then 2 else 1) && FromBigEndian(d[28..30]) == 0
    && ReadFields(d, 30, 1).Some?
    && var f := ReadFields(d, 30, 1).value.0[0];
       if p.base.filter.Some? then f == Field(43, EncExp(p.base.filter.value))
       else
         && ReadFields(d, 30, 1).value.1 == |d|
         && f.code == (if p.sendSetName then 42 else 41)
         && |f.body| >= 5 && FromBigEndian(f.body[..4]) == |offsets| && f.body[4] == (if p.allowInline then 1 else 0)
         && (ReadRows(f.body, 5, |offsets|, None) == Some((AskedRows(batch, offsets, p.sendSetName), |f.body|)) <==>
             forall i :: 0 <= i < |offsets| ==> Readable(batch, offsets, i))
  }

  lemma BatchTold(p: BatchPolicy, batch: seq<BatchRead>, offsets: seq<nat>)
    requires ValidReads(batch, offsets) && ValidFilter(p.base.filter)
    requires |SentMessage(p, batch, offsets)| < 0x1_0000_0000
    ensures TellsBatch(SentMessage(p, batch, offsets), p, batch, offsets)
  {
    hide FieldsBytes, FieldBytes, BatchBody, HeaderTail, Prelude, BigEndian, FromBigEndian, EncExp, Packable,
         ReadFields, At, SentBody, ReadBatch, ReadRows, AskedRows, Readable, PlainHeader, BitOr;
    var d, c, body := SentMessage(p, batch, offsets), BatchCommand(p, batch, offsets), SentBody(p, batch, offsets);
    HeaderTells(c.header, |c.fields|, 0, body);
    PlainSums(p.base.consistencyAll, 0);
    assert d[30..] == body;
    BodyStarts(p, batch, offsets);
    TailAt(d, 30);
    AtSplit(d, 30, FieldsBytes(c.fields[..1]), body[|FieldsBytes(c.fields[..1])|..]);
    FieldsRead(c.fields[..1], d, 30);
    if p.base.filter.None? {
      BodyFront(p, batch, offsets);
      CompressionLosesNothing(p, batch, offsets);
      assert ReadBatch(c) == Some(AskedRows(batch, offsets, p.sendSetName))
        <==> ReadRows(c.fields[0].body, 5, |offsets|, None)
             == Some((AskedRows(batch, offsets, p.sendSetName), |c.fields[0].body|))
      by {
        RowsOfBatch(c, |offsets|);
      }
    }
  }

  lemma RowsOfBatch(c: Command, n: nat)
    requires |c.fields| == 1 && |c.fields[0].body| >= 5 && FromBigEndian(c.fields[0].body[..4]) == n
    ensures var r := ReadRows(c.fields[0].body, 5, n, None);
      ReadBatch(c) == if r.Some? && r.value.1 == |c.fields[0].body| then Some(r.value.0) else None
  {
    hide ReadRows, FromBigEndian;
  }

  lemma TailAt(d: bytes, n: nat)
    requires n <= |d|
    ensures At(d, n, d[n..])
  {
  }

  /** The first field is as it should be. */
  lemma BodyStarts(p: BatchPolicy, batch: seq<BatchRead>, offsets: seq<nat>)
    requires ValidReads(batch, offsets) && ValidFilter(p.base.filter)
    ensures var c, body := BatchCommand(p, batch, offsets), SentBody(p, batch, offsets);
      var first := FieldsBytes(c.fields[..1]);
      && |first| <= |body| && body == first + body[|first|..]
      && (p.base.filter.None? ==> first == body)
      && (p.base.filter.Some? ==> c.fields[0] == Field(43, EncExp(p.base.filter.value)))
  {
    hide FieldsBytes, FieldBytes, BatchBody, EncExp, Packable;
    var c := BatchCommand(p, batch, offsets);
    NothingInside();
    if p.base.filter.None? {
      assert c.fields[..1] == [c.fields[0]];
      OneField(c.fields[0]);
      FieldIs(c.fields[0]);
    } else {
      assert c.fields[..1] == FilterFields(p.base.filter);
    }
  }

  lemma BodyFront(p: BatchPolicy, batch: seq<BatchRead>, offsets: seq<nat>)
    requires ValidReads(batch, offsets) && |BatchBody(p, batch, offsets)| < 0x1_0000_0000
    ensures var b := BatchBody(p, batch, offsets);
      |b| >= 5 && FromBigEndian(b[..4]) == |offsets| && b[4] == (if p.allowInline then 1 else 0)
  {
    hide BigEndian, FromBigEndian, RowParts, Concat;
    RowsFit(p, batch, offsets);
    ReadBackWidths(|offsets|);
    assert BatchBody(p, batch, offsets)[..4] == BigEndian(4, |offsets|);
  }
}
