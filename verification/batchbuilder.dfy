/**
 The builder of batch reads: set_batch_read of src/commands/buffer.rs.
 */
module BatchBuilder {
  import opened Options
  import opened Bytes
  import opened CommandBuffer
  import opened Encoder
  import opened RoundTrip
  import opened Expressions
  import opened Messages
  import opened Commands
  import opened Builders
  import opened RecordBuilders
  import opened ScanBuilders
  import opened Batches

  lemma RowHeaderLength(r: BatchRead, sendSet: bool)
    ensures |RowHeader(r, sendSet)|
         == 5 + (|r.key.namespace| + 5) + (if sendSet then |r.key.setName| + 5 else 0) + |OpsBytes(RowOps(r.bins))|
  {
    hide BigEndian, FieldBytes, FieldsBytes, OpsBytes, RowOps, RowAttr;
    var ns, table := Field(NAMESPACE, r.key.namespace), Field(TABLE, r.key.setName);
    OneField(ns);
    FieldLength(ns);
    FieldLength(table);
    FieldsGrow([ns], table);
    assert [ns] + [table] == [ns, table] && [ns] + [] == [ns];
  }

  /** The size of the rest of a row, behind the index and the digest. */
  method EstimateRowEnd(buf: Buffer, r: BatchRead, before: Option<BatchRead>, sendSet: bool)
    modifies buf`offset
    ensures buf.offset == old(buf.offset)
                          + (if before.Some? && MatchHeader(r, before.value, sendSet) then 1 else 1 + |RowHeader(r, sendSet)|)
  {
    hide RowHeader, OpsBytes, NameOps;
    RowHeaderLength(r, sendSet);
    NothingInside();
    if before.Some? && MatchHeader(r, before.value, sendSet) {
      buf.Skip(1);
    } else {
      buf.Skip(|r.key.namespace| + 5 + 6);
      if sendSet {
        buf.Skip(|r.key.setName| + 5);
      }
      if r.bins.SomeBins? {
        EstimateNames(buf, r.bins.names);
      }
    }
  }

  method EstimateRows(buf: Buffer, batch: seq<BatchRead>, offsets: seq<nat>, sendSet: bool)
    requires ValidReads(batch, offsets)
    modifies buf`offset
    ensures buf.offset == old(buf.offset) + |Concat(RowParts(batch, offsets, sendSet))|
  {
    hide RowHeader, BigEndian, MatchHeader;
    ghost var at, parts := buf.offset, RowParts(batch, offsets, sendSet);
    var before: Option<BatchRead> := None;
    for i := 0 to |offsets|
      invariant before == if i == 0 then None else Some(batch[offsets[i - 1]])
      invariant buf.offset == at + |Concat(parts[..i])|
    {
      ConcatStep(parts, i);
      var r := batch[offsets[i]];
      buf.Skip(|r.key.digest| + 4);
      EstimateRowEnd(buf, r, before, sendSet);
      before := Some(r);
    }
    assert parts[..|offsets|] == parts;
  }

  method WriteRowHeader(buf: Buffer, r: BatchRead, sendSet: bool)
    requires Room(buf, |RowHeader(r, sendSet)|)
    modifies buf
    ensures buf.Holds(old(buf.data), old(buf.offset), RowHeader(r, sendSet))
  {
    hide Splice, BigEndian, FieldsBytes, OpsBytes, RowFields, NameOps, BitOr;
    ghost var d, at, done := buf.data, buf.offset, [RowAttr(r.bins)];
    var fieldCount := if sendSet then 2 else 1;
    match r.bins {
      case NoBins => buf.WriteU8(BitOr(INFO1_READ, INFO1_NOBINDATA));
      case AllBins => buf.WriteU8(BitOr(INFO1_READ, INFO1_GET_ALL));
      case SomeBins(_) => buf.WriteU8(INFO1_READ);
    }
    buf.WriteU16(fieldCount);
    PackedJoin(buf, d, at, done, BigEndian(2, fieldCount));
    done := done + BigEndian(2, fieldCount);
    var opCount := if r.bins.SomeBins? then |r.bins.names| % 0x1_0000 else 0;
    buf.WriteU16(opCount);
    PackedJoin(buf, d, at, done, BigEndian(2, opCount));
    done := done + BigEndian(2, opCount);
    WriteRowFields(buf, r, sendSet);
    PackedJoin(buf, d, at, done, FieldsBytes(RowFields(r, sendSet)));
    done := done + FieldsBytes(RowFields(r, sendSet));
    WriteRowNames(buf, r.bins);
    PackedJoin(buf, d, at, done, OpsBytes(RowOps(r.bins)));
  }

  method WriteRowFields(buf: Buffer, r: BatchRead, sendSet: bool)
    requires Room(buf, |FieldsBytes(RowFields(r, sendSet))|)
    modifies buf
    ensures buf.Holds(old(buf.data), old(buf.offset), FieldsBytes(RowFields(r, sendSet)))
  {
    hide Splice, FieldBytes, FieldsBytes;
    ghost var d, at, ns := buf.data, buf.offset, Field(NAMESPACE, r.key.namespace);
    OneField(ns);
    assert sendSet ==> [ns] + [Field(TABLE, r.key.setName)] == RowFields(r, sendSet);
    assert [ns] + [] == [ns];
    if sendSet {
      FieldsRoom([ns], Field(TABLE, r.key.setName), RowFields(r, sendSet));
    }
    WriteField(buf, NAMESPACE, r.key.namespace);
    if sendSet {
      WriteField(buf, TABLE, r.key.setName);
      FieldsAdd(buf, d, at, [ns], Field(TABLE, r.key.setName));
    }
  }

  method WriteRowNames(buf: Buffer, bins: Bins)
    requires Room(buf, |OpsBytes(RowOps(bins))|)
    modifies buf
    ensures buf.Holds(old(buf.data), old(buf.offset), OpsBytes(RowOps(bins)))
  {
    hide Splice, OpsBytes, NameOps;
    NothingInside();
    SpliceNothing(buf.data, buf.offset);
    if bins.SomeBins? {
      WriteNames(buf, bins.names);
    }
  }

  method WriteRow(buf: Buffer, batch: seq<BatchRead>, offsets: seq<nat>, i: nat, before: Option<BatchRead>, sendSet: bool)
    requires ValidReads(batch, offsets) && i < |offsets|
    requires before == if i == 0 then None else Some(batch[offsets[i - 1]])
    requires Room(buf, |RowBytes(batch, offsets, i, sendSet)|)
    modifies buf
    ensures buf.Holds(old(buf.data), old(buf.offset), RowBytes(batch, offsets, i, sendSet))
  {
    hide Splice, BigEndian, RowHeader, MatchHeader;
    var r := batch[offsets[i]];
    ghost var d, at, start := buf.data, buf.offset, RowStart(batch, offsets, i);
    buf.WriteU32(offsets[i]);
    buf.WriteBytes(r.key.digest);
    PackedJoin(buf, d, at, BigEndian(4, offsets[i]), r.key.digest);
    if before.Some? && MatchHeader(r, before.value, sendSet) {
      buf.WriteU8(1);
      PackedJoin(buf, d, at, start, [1]);
    } else {
      buf.WriteU8(0);
      PackedJoin(buf, d, at, start, [0]);
      WriteRowHeader(buf, r, sendSet);
      PackedJoin(buf, d, at, start + [0], RowHeader(r, sendSet));
      Associates(start, [0], RowHeader(r, sendSet));
    }
  }

  method WriteRows(buf: Buffer, batch: seq<BatchRead>, offsets: seq<nat>, sendSet: bool)
    requires ValidReads(batch, offsets) && Room(buf, |Concat(RowParts(batch, offsets, sendSet))|)
    modifies buf
    ensures buf.Holds(old(buf.data), old(buf.offset), Concat(RowParts(batch, offsets, sendSet)))
  {
    hide Splice, RowBytes;
    ghost var d, at, parts := buf.data, buf.offset, RowParts(batch, offsets, sendSet);
    var before: Option<BatchRead> := None;
    NothingDone(buf);
    assert Concat(parts[..0]) == [];
    for i := 0 to |offsets|
      invariant before == if i == 0 then None else Some(batch[offsets[i - 1]])
      invariant buf.Holds(d, at, Concat(parts[..i]))
    {
      ConcatStep(parts, i);
      ConcatSplit(parts, i + 1);
      WriteRow(buf, batch, offsets, i, before, sendSet);
      PackedJoin(buf, d, at, Concat(parts[..i]), parts[i]);
      before := Some(batch[offsets[i]]);
    }
    assert parts[..|offsets|] == parts;
  }

  method WriteBatchBody(buf: Buffer, p: BatchPolicy, batch: seq<BatchRead>, offsets: seq<nat>)
    requires ValidReads(batch, offsets) && Room(buf, |BatchBody(p, batch, offsets)|)
    modifies buf
    ensures buf.Holds(old(buf.data), old(buf.offset), BatchBody(p, batch, offsets))
  {
    hide Splice, BigEndian, RowParts, Concat;
    ghost var d, at, rows := buf.data, buf.offset, Concat(RowParts(batch, offsets, p.sendSetName));
    ghost var count, inline := BigEndian(4, |offsets|), [if p.allowInline then 1 else 0];
    buf.WriteU32(|offsets|);
    buf.WriteU8(if p.allowInline then 1 else 0);
    PackedJoin(buf, d, at, count, inline);
    WriteRows(buf, batch, offsets, p.sendSetName);
    PackedJoin(buf, d, at, count + inline, rows);
  }

  /** The field with a length of 0, and the length that is put there once the end is known. */
  method WriteBatchField(buf: Buffer, p: BatchPolicy, batch: seq<BatchRead>, offsets: seq<nat>)
    requires ValidReads(batch, offsets) && buf.offset >= HEADER_SIZE
    requires Room(buf, 5 + |BatchBody(p, batch, offsets)|)
    modifies buf
    ensures var body, at := BatchBody(p, batch, offsets), old(buf.offset);
      buf.Holds(old(buf.data), at, BigEndian(4, at - HEADER_SIZE + |body| + 1) + ([BatchCode(p)] + body))
  {
    hide Splice, BigEndian, BatchBody, HEADER_SIZE;
    ghost var d, at, rest := buf.data, buf.offset, [BatchCode(p)] + BatchBody(p, batch, offsets);
    var fieldSizeOffset := buf.offset;
    WriteFieldHeader(buf, 0, if p.sendSetName then BATCH_INDEX_WITH_SET else BATCH_INDEX);
    WriteBatchBody(buf, p, batch, offsets);
    PackedJoin(buf, d, at, BigEndian(4, 1) + [BatchCode(p)], BatchBody(p, batch, offsets));
    Associates(BigEndian(4, 1), [BatchCode(p)], BatchBody(p, batch, offsets));
    var fieldSize := buf.offset - HEADER_SIZE - 4;
    buf.data := Splice(buf.data, fieldSizeOffset, BigEndian(4, fieldSize));
    Patched(d, at, BigEndian(4, 1), BigEndian(4, fieldSize), rest);
  }

  /** Overwriting the front of what was written. */
  lemma Patched(d: bytes, at: nat, a: bytes, b: bytes, rest: bytes)
    requires |a| == |b| && at + |a| + |rest| <= |d|
    ensures Splice(Splice(d, at, a + rest), at, b) == Splice(d, at, b + rest)
  {
    var once := Splice(d, at, a + rest);
    assert once[at + |b|..] == rest + d[at + |a| + |rest|..];
    assert once[..at] == d[..at];
  }

  method EstimateBatch(buf: Buffer, p: BatchPolicy, batch: seq<BatchRead>, offsets: seq<nat>)
    returns (fieldCount: nat, filterSize: nat)
    requires ValidReads(batch, offsets) && ValidFilter(p.base.filter)
    modifies buf`offset
    ensures buf.offset == HEADER_SIZE + |SentBody(p, batch, offsets)|
    ensures fieldCount == |BatchCommand(p, batch, offsets).fields|
    ensures p.base.filter.Some? ==> filterSize == |EncExp(p.base.filter.value)|
  {
    hide FieldsBytes, FilterFields, RowParts, Concat, PlainHeader, Packable, EncExp, BigEndian;
    FilterCount(p.base.filter);
    buf.Begin();
    fieldCount := 1;
    buf.Skip(5 + 5);
    filterSize := EstimateFilterSize(buf, p.base.filter);
    if filterSize > 0 {
      fieldCount := fieldCount + 1;
    }
    EstimateRows(buf, batch, offsets, p.sendSetName);
  }

  ghost predicate BatchSent(buf: Buffer, r: Outcome<()>, p: BatchPolicy, batch: seq<BatchRead>, offsets: seq<nat>)
    requires ValidReads(batch, offsets) && ValidFilter(p.base.filter)
    reads buf
  {
    if CommandSize(BatchCommand(p, batch, offsets)) > 1024 * 1024 + 8 then r.Err?
    else r == Ok(()) && buf.data == SentMessage(p, batch, offsets) && buf.offset == 8
  }

  method SetBatchRead(buf: Buffer, p: BatchPolicy, batch: seq<BatchRead>, offsets: seq<nat>) returns (r: Outcome<()>)
    requires ValidReads(batch, offsets) && ValidFilter(p.base.filter)
    modifies buf
    ensures BatchSent(buf, r, p, batch, offsets)
    ensures r.Ok? ==> TellsBatch(buf.data, p, batch, offsets)
  {
    hide TellsBatch;
    hide Splice, BigEndian, FieldsBytes, FilterFields, RowParts, Concat, HeaderTail, PlainHeader, Prelude, At;
    hide Packable, EncExp, BitOr;
    ghost var filter, body := FieldsBytes(FilterFields(p.base.filter)), BatchBody(p, batch, offsets);
    ghost var c := BatchCommand(p, batch, offsets);
    BatchSize(p, batch, offsets);
    var fieldCount, filterSize := EstimateBatch(buf, p, batch, offsets);
    var _ :- buf.SizeBuffer();
    WriteHeader(buf, p.base.consistencyAll, BitOr(INFO1_READ, INFO1_BATCH), 0, fieldCount, 0);
    ghost var d := buf.data;
    WriteOptionalFilter(buf, p.base.filter, filterSize);
    WriteBatchField(buf, p, batch, offsets);
    PackedJoin(buf, d, HEADER_SIZE, filter, BigEndian(4, |filter| + |body| + 1) + ([BatchCode(p)] + body));
    End(buf);
    Finished(d, HeaderTail(c.header, fieldCount, 0), SentBody(p, batch, offsets));
    assert buf.data[..|d|] == buf.data;
    BatchTold(p, batch, offsets);
    return Ok(());
  }
}
