/**
 The builders of scans and queries (src/commands/buffer.rs, src/query/filter.rs).  With an index filter
 and an empty list of bins, the size pass of a query counts a field that the write pass leaves out.
 */
module ScanBuilders {
  import opened Options
  import opened Bytes
  import opened Values
  import opened CommandBuffer
  import opened Encoder
  import opened RoundTrip
  import opened Particles
  import opened Expressions
  import opened Messages
  import opened Commands
  import opened Builders
  import opened RecordBuilders
  import opened Told
  import opened Asked

  // ---------------------------------------------------------------------------------------------
  // Groups of fields

  lemma GroupAdd(buf: Buffer, d: bytes, at: nat, done: seq<Field>, more: seq<Field>)
    requires at + |FieldsBytes(done)| <= |d|
    requires buf.Holds(Splice(d, at, FieldsBytes(done)), at + |FieldsBytes(done)|, FieldsBytes(more))
    ensures buf.Holds(d, at, FieldsBytes(done + more))
  {
    hide FieldsBytes, Splice;
    FieldsJoin(done, more);
    PackedJoin(buf, d, at, FieldsBytes(done), FieldsBytes(more));
  }

  lemma GroupRoom(done: seq<Field>, more: seq<Field>, all: seq<Field>)
    requires done + more <= all
    ensures |FieldsBytes(done)| + |FieldsBytes(more)| <= |FieldsBytes(all)|
  {
    hide FieldsBytes;
    assert all == done + more + all[|done| + |more|..];
    FieldsJoin(done + more, all[|done| + |more|..]);
    FieldsJoin(done, more);
  }

  method EstimateNonEmpty(buf: Buffer, ghost code: byte, body: bytes) returns (count: nat)
    modifies buf`offset
    ensures buf.offset == old(buf.offset) + |FieldsBytes(NonEmptyField(code, body))|
    ensures count == |NonEmptyField(code, body)|
  {
    hide FieldBytes, FieldsBytes;
    NothingInside();
    if body == [] {
      return 0;
    }
    OneField(Field(code, body));
    FieldLength(Field(code, body));
    buf.Skip(|body| + 5);
    return 1;
  }

  method WriteNonEmpty(buf: Buffer, code: byte, body: bytes)
    requires Room(buf, |FieldsBytes(NonEmptyField(code, body))|)
    modifies buf
    ensures buf.Holds(old(buf.data), old(buf.offset), FieldsBytes(NonEmptyField(code, body)))
  {
    hide FieldBytes, FieldsBytes, Splice;
    NothingDone(buf);
    if body != [] {
      OneField(Field(code, body));
      WriteField(buf, code, body);
    }
  }

  lemma {:induction false} PidLength(partitions: seq<u16>)
    ensures |Concat(PidParts(partitions))| == 2 * |partitions|
  {
    if partitions != [] {
      assert PidParts(partitions)[1..] == PidParts(partitions[1..]);
      PidLength(partitions[1..]);
    }
  }

  method WritePids(buf: Buffer, partitions: seq<u16>)
    requires Room(buf, |FieldBytes(PidField(partitions))|)
    modifies buf
    ensures buf.Holds(old(buf.data), old(buf.offset), FieldBytes(PidField(partitions)))
  {
    hide Splice, BigEndian, LittleEndian16;
    PidLength(partitions);
    ghost var d, at, parts := buf.data, buf.offset, PidParts(partitions);
    ghost var head := BigEndian(4, |partitions| * 2 + 1) + [PID_ARRAY];
    WriteFieldHeader(buf, |partitions| * 2, PID_ARRAY);
    assert Concat(parts[..0]) == [] && head + [] == head;
    for i := 0 to |partitions|
      invariant buf.Holds(d, at, head + Concat(parts[..i]))
    {
      ConcatStep(parts, i);
      ConcatSplit(parts, i + 1);
      buf.WriteU16LittleEndian(partitions[i]);
      PackedJoin(buf, d, at, head + Concat(parts[..i]), parts[i]);
      Associates(head, Concat(parts[..i]), parts[i]);
    }
    assert parts[..|partitions|] == parts;
    Associates(BigEndian(4, |partitions| * 2 + 1), [PID_ARRAY], Concat(parts));
  }

  lemma SingleSizes(code: byte, width: nat, v: nat, partitions: seq<u16>)
    ensures |FieldsBytes([Field(code, BigEndian(width, v))])| == width + 5
    ensures |FieldsBytes([PidField(partitions)])| == 2 * |partitions| + 5
  {
    hide FieldBytes, FieldsBytes, BigEndian;
    OneField(Field(code, BigEndian(width, v)));
    FieldLength(Field(code, BigEndian(width, v)));
    PidLength(partitions);
    OneField(PidField(partitions));
    FieldLength(PidField(partitions));
  }

  // ---------------------------------------------------------------------------------------------
  // Scans

  method EstimateScanFields(buf: Buffer, p: ScanPolicy, namespace: bytes, setName: bytes,
                            ghost taskId: u64, partitions: seq<u16>)
    returns (count: nat, filterSize: nat)
    requires ValidFilter(p.filter)
    modifies buf`offset
    ensures buf.offset == old(buf.offset) + |FieldsBytes(ScanFields(p, namespace, setName, taskId, partitions))|
    ensures count == |ScanFields(p, namespace, setName, taskId, partitions)|
    ensures p.filter.Some? ==> filterSize == |EncExp(p.filter.value)|
  {
    hide FieldsBytes, NonEmptyField, FilterFields, BigEndian, EncExp, PidField;
    count := 0;
    filterSize := EstimateFilterSize(buf, p.filter);
    FilterCount(p.filter);
    if filterSize > 0 {
      count := count + 1;
    }
    var n := EstimateNonEmpty(buf, NAMESPACE, namespace);
    var m := EstimateNonEmpty(buf, TABLE, setName);
    buf.Skip(|partitions| * 2 + 5);
    buf.Skip(4 + 5);
    buf.Skip(8 + 5);
    count := count + n + m + 3;
    ghost var ns, table := NonEmptyField(NAMESPACE, namespace), NonEmptyField(TABLE, setName);
    ghost var pids, filter := [PidField(partitions)], FilterFields(p.filter);
    ghost var time, task := [Field(SCAN_TIMEOUT, BigEndian(4, p.socketTimeout))], [Field(TRAN_ID, BigEndian(8, taskId))];
    SingleSizes(SCAN_TIMEOUT, 4, p.socketTimeout, partitions);
    SingleSizes(TRAN_ID, 8, taskId, partitions);
    FieldsJoin(ns, table);
    FieldsJoin(ns + table, pids);
    FieldsJoin(ns + table + pids, filter);
    FieldsJoin(ns + table + pids + filter, time);
    FieldsJoin(ns + table + pids + filter + time, task);
    assert ns + table + pids + filter + time + task == ScanFields(p, namespace, setName, taskId, partitions);
  }

  method WriteScanFields(buf: Buffer, p: ScanPolicy, namespace: bytes, setName: bytes, taskId: u64,
                         partitions: seq<u16>, filterSize: nat)
    requires ValidFilter(p.filter) && (p.filter.Some? ==> filterSize == |EncExp(p.filter.value)|)
    requires Room(buf, |FieldsBytes(ScanFields(p, namespace, setName, taskId, partitions))|)
    modifies buf
    ensures buf.Holds(old(buf.data), old(buf.offset),
                      FieldsBytes(ScanFields(p, namespace, setName, taskId, partitions)))
  {
    hide Splice, FieldBytes, FieldsBytes, NonEmptyField, BigEndian, EncExp, PidField, Packable;
    ghost var d, at, all := buf.data, buf.offset, ScanFields(p, namespace, setName, taskId, partitions);
    ghost var ns, table := NonEmptyField(NAMESPACE, namespace), NonEmptyField(TABLE, setName);
    ghost var time, task := Field(SCAN_TIMEOUT, BigEndian(4, p.socketTimeout)), Field(TRAN_ID, BigEndian(8, taskId));
    ghost var done := ns + table;
    FieldsJoin(ns, table);
    GroupRoom(ns, table, all);
    WriteNonEmpty(buf, NAMESPACE, namespace);
    WriteNonEmpty(buf, TABLE, setName);
    GroupAdd(buf, d, at, ns, table);
    FieldsRoom(done, PidField(partitions), all);
    WritePids(buf, partitions);
    FieldsAdd(buf, d, at, done, PidField(partitions));
    done := done + [PidField(partitions)];
    if p.filter.Some? {
      ghost var f := Field(FILTER_EXP, EncExp(p.filter.value));
      FieldsRoom(done, f, all);
      WriteFilterExpression(buf, p.filter.value, filterSize);
      FieldsAdd(buf, d, at, done, f);
      done := done + [f];
    }
    assert all == done + [time, task];
    assert done + [time] <= all && done + [time] + [task] == all;
    FieldsRoom(done, time, all);
    FieldsRoom(done + [time], task, all);
    WriteU64Field(buf, SCAN_TIMEOUT, 4, p.socketTimeout);
    FieldsAdd(buf, d, at, done, time);
    WriteU64Field(buf, TRAN_ID, 8, taskId);
    FieldsAdd(buf, d, at, done + [time], task);
  }

  method SetScan(buf: Buffer, p: ScanPolicy, namespace: bytes, setName: bytes, bins: Bins, taskId: u64,
                 partitions: seq<u16>)
    returns (r: Outcome<()>)
    requires ValidFilter(p.filter)
    modifies buf
    ensures Sent(buf, r, ScanCommand(p, namespace, setName, bins, taskId, partitions))
    ensures r.Ok? ==> TellsScan(buf.data, p, namespace, setName, taskId, partitions)
    ensures r.Ok? ==> TellsAttributes(buf.data, p.consistencyAll, 1 + (if bins.NoBins? then 32 else 0), 0)
    ensures r.Ok? ==> TellsOps(buf.data, if bins.SomeBins? then Unvalued(1, bins.names) else [])
  {
    hide TellsScan, TellsAttributes, TellsOps;
    hide Splice, FieldsBytes, OpsBytes, HeaderTail, PlainHeader, ScanFields, NameOps, At, CommandBytes, BitOr;
    ghost var c := ScanCommand(p, namespace, setName, bins, taskId, partitions);
    buf.Begin();
    var fieldCount, filterSize := EstimateScanFields(buf, p, namespace, setName, taskId, partitions);
    var binCount := 0;
    NothingInside();
    if bins.SomeBins? {
      EstimateNames(buf, bins.names);
      binCount := |bins.names|;
    }
    var _ :- buf.SizeBuffer();
    var readAttr := INFO1_READ;
    if bins.NoBins? {
      readAttr := BitOr(readAttr, INFO1_NOBINDATA);
    }
    WriteHeader(buf, p.consistencyAll, readAttr, 0, fieldCount, binCount);
    ghost var d := buf.data;
    WriteScanFields(buf, p, namespace, setName, taskId, partitions, filterSize);
    SpliceNothing(buf.data, buf.offset);
    if bins.SomeBins? {
      WriteNames(buf, bins.names);
    }
    PackedJoin(buf, d, HEADER_SIZE, FieldsBytes(c.fields), OpsBytes(c.ops));
    Finish(buf, d, c);
    ScanTold(p, namespace, setName, bins, taskId, partitions);
    return Ok(());
  }

  // ---------------------------------------------------------------------------------------------
  // Index filters and lists of bins

  method EstimateIndexFilter(f: Filter) returns (size: nat)
    requires ValidIndexFilter(f)
    ensures size == |IndexFilterBytes(f)|
  {
    hide ParticleBytes, BigEndian, Storable;
    var begin := EstimateSize(f.begin);
    var end := EstimateSize(f.end);
    size := |f.binName| + begin + end + 10;
  }

  method WriteSizedParticle(buf: Buffer, v: Value)
    requires Storable(v) && Room(buf, |SizedParticle(v)|)
    modifies buf
    ensures buf.Holds(old(buf.data), old(buf.offset), SizedParticle(v))
  {
    hide Splice, ParticleBytes, BigEndian, Storable;
    ghost var d, at := buf.data, buf.offset;
    var size := EstimateSize(v);
    buf.WriteU32(size);
    WriteTo(v, buf);
    PackedJoin(buf, d, at, BigEndian(4, size), ParticleBytes(v));
  }

  method WriteIndexFilter(buf: Buffer, f: Filter)
    requires ValidIndexFilter(f) && Room(buf, |IndexFilterBytes(f)|)
    modifies buf
    ensures buf.Holds(old(buf.data), old(buf.offset), IndexFilterBytes(f))
  {
    hide Splice, SizedParticle, Storable;
    ghost var d, at, done := buf.data, buf.offset, [|f.binName| % 0x100] + f.binName;
    WriteShortText(buf, f.binName);
    buf.WriteU8(f.particle);
    PackedJoin(buf, d, at, done, [f.particle]);
    done := done + [f.particle];
    WriteSizedParticle(buf, f.begin);
    PackedJoin(buf, d, at, done, SizedParticle(f.begin));
    done := done + SizedParticle(f.begin);
    WriteSizedParticle(buf, f.end);
    PackedJoin(buf, d, at, done, SizedParticle(f.end));
  }

  /** The size of the field with the list of bins: a count, and a length before each name. */
  method BinListSize(names: seq<bytes>) returns (size: nat)
    ensures size == |BinListField(names).body|
  {
    ghost var parts := NameParts(names);
    size := 1;
    for i := 0 to |names|
      invariant size == 1 + |Concat(parts[..i])|
    {
      ConcatStep(parts, i);
      size := size + |names[i]| + 1;
    }
    assert parts[..|names|] == parts;
  }

  method WriteBinList(buf: Buffer, names: seq<bytes>, size: nat)
    requires size == |BinListField(names).body| && Room(buf, |FieldBytes(BinListField(names))|)
    modifies buf
    ensures buf.Holds(old(buf.data), old(buf.offset), FieldBytes(BinListField(names)))
  {
    hide Splice, BigEndian, NameParts, Concat;
    ghost var d, at, body := buf.data, buf.offset, BinListField(names).body;
    WriteFieldHeader(buf, size, QUERY_BIN_LIST);
    WriteBinNames(buf, names);
    PackedJoin(buf, d, at, BigEndian(4, size + 1) + [QUERY_BIN_LIST], body);
    Associates(BigEndian(4, size + 1), [QUERY_BIN_LIST], body);
  }

  method WriteBinNames(buf: Buffer, names: seq<bytes>)
    requires Room(buf, |BinListField(names).body|)
    modifies buf
    ensures buf.Holds(old(buf.data), old(buf.offset), BinListField(names).body)
  {
    hide Splice;
    ghost var d, at, parts, count := buf.data, buf.offset, NameParts(names), [|names| % 0x100];
    buf.WriteU8(|names| % 0x100);
    assert Concat(parts[..0]) == [] && count + [] == count;
    for i := 0 to |names|
      invariant buf.Holds(d, at, count + Concat(parts[..i]))
    {
      ConcatStep(parts, i);
      ConcatSplit(parts, i + 1);
      WriteShortText(buf, names[i]);
      PackedJoin(buf, d, at, count + Concat(parts[..i]), parts[i]);
      Associates(count, Concat(parts[..i]), parts[i]);
    }
    assert parts[..|names|] == parts;
  }

  method WriteShortText(buf: Buffer, text: bytes)
    requires Room(buf, 1 + |text|)
    modifies buf
    ensures buf.Holds(old(buf.data), old(buf.offset), [|text| % 0x100] + text)
  {
    hide Splice;
    ghost var d, at := buf.data, buf.offset;
    buf.WriteU8(|text| % 0x100);
    buf.WriteBytes(text);
    PackedJoin(buf, d, at, [|text| % 0x100], text);
  }

  // ---------------------------------------------------------------------------------------------
  // Queries

  function RangeField(f: Filter): Field
    requires ValidIndexFilter(f)
  {
    Field(INDEX_RANGE, [1] + IndexFilterBytes(f))
  }

  /** What the size pass adds up for the fields in the middle, with the field that is not written. */
  method EstimateIndexFields(buf: Buffer, st: Statement, partitions: seq<u16>)
    returns (count: nat, filterSize: nat, binListSize: nat)
    requires ValidStatement(st)
    modifies buf`offset
    ensures buf.offset == old(buf.offset) + |FieldsBytes(IndexFields(st, partitions))| + if CountsAbsentField(st) then 6 else 0
    ensures count == |IndexFields(st, partitions)| + if CountsAbsentField(st) then 1 else 0
    ensures st.filters.Some? ==> filterSize == 1 + |IndexFilterBytes(st.filters.value)|
    ensures st.filters.Some? && st.bins.SomeBins? ==> binListSize == |BinListField(st.bins.names).body|
  {
    hide FieldBytes, FieldsBytes, IndexFilterBytes, PidField, ValidIndexFilter, BinListField;
    count, filterSize, binListSize := 0, 0, 0;
    if st.filters.None? {
      buf.Skip(|partitions| * 2 + 5);
      SingleSizes(0, 0, 0, partitions);
      return 1, 0, 0;
    }
    var f := st.filters.value;
    ghost var at, done := buf.offset, [];
    NothingInside();
    if f.indexType != 0 {
      buf.Skip(1 + 5);
      count := count + 1;
      FieldsGrow(done, Field(INDEX_TYPE, [f.indexType]));
      done := done + [Field(INDEX_TYPE, [f.indexType])];
    }
    filterSize := EstimateIndexFilter(f);
    filterSize := 1 + filterSize;
    buf.Skip(filterSize + 5);
    count := count + 1;
    FieldsGrow(done, RangeField(f));
    done := done + [RangeField(f)];
    if st.bins.SomeBins? {
      buf.Skip(5);
      binListSize := BinListSize(st.bins.names);
      buf.Skip(binListSize);
      count := count + 1;
      EmptyBinList();
      if st.bins.names != [] {
        FieldsGrow(done, BinListField(st.bins.names));
        done := done + [BinListField(st.bins.names)];
      }
    }
    assert done == IndexFields(st, partitions);
  }

  lemma EmptyBinList()
    ensures |BinListField([]).body| == 1
  {
    assert NameParts([]) == [];
  }

  method WriteIndexFields(buf: Buffer, st: Statement, partitions: seq<u16>, filterSize: nat, binListSize: nat)
    requires ValidStatement(st)
    requires st.filters.Some? ==> filterSize == 1 + |IndexFilterBytes(st.filters.value)|
    requires st.filters.Some? && st.bins.SomeBins? ==> binListSize == |BinListField(st.bins.names).body|
    requires Room(buf, |FieldsBytes(IndexFields(st, partitions))|)
    modifies buf
    ensures buf.Holds(old(buf.data), old(buf.offset), FieldsBytes(IndexFields(st, partitions)))
  {
    hide Splice, BigEndian, FieldBytes, FieldsBytes, IndexFilterBytes, PidField, ValidIndexFilter, BinListField;
    ghost var d, at, done, all := buf.data, buf.offset, [], IndexFields(st, partitions);
    if st.filters.None? {
      OneField(PidField(partitions));
      WritePids(buf, partitions);
      return;
    }
    var f := st.filters.value;
    NothingDone(buf);
    if f.indexType != 0 {
      ghost var g := Field(INDEX_TYPE, [f.indexType]);
      FieldsRoom(done, g, all);
      WriteField(buf, INDEX_TYPE, [f.indexType]);
      FieldsAdd(buf, d, at, done, g);
      done := done + [g];
    }
    FieldsRoom(done, RangeField(f), all);
    WriteRange(buf, f, filterSize);
    FieldsAdd(buf, d, at, done, RangeField(f));
    done := done + [RangeField(f)];
    if st.bins.SomeBins? && st.bins.names != [] {
      FieldsRoom(done, BinListField(st.bins.names), all);
      WriteBinList(buf, st.bins.names, binListSize);
      FieldsAdd(buf, d, at, done, BinListField(st.bins.names));
      done := done + [BinListField(st.bins.names)];
    }
    assert done == all;
  }

  method WriteRange(buf: Buffer, f: Filter, filterSize: nat)
    requires ValidIndexFilter(f) && filterSize == 1 + |IndexFilterBytes(f)|
    requires Room(buf, |FieldBytes(RangeField(f))|)
    modifies buf
    ensures buf.Holds(old(buf.data), old(buf.offset), FieldBytes(RangeField(f)))
  {
    hide Splice, BigEndian, IndexFilterBytes, ValidIndexFilter;
    ghost var d, at, head := buf.data, buf.offset, BigEndian(4, filterSize + 1) + [INDEX_RANGE];
    WriteFieldHeader(buf, filterSize, INDEX_RANGE);
    buf.WriteU8(1);
    PackedJoin(buf, d, at, head, [1]);
    WriteIndexFilter(buf, f);
    PackedJoin(buf, d, at, head + [1], IndexFilterBytes(f));
    Associates(head, [1], IndexFilterBytes(f));
    Associates(BigEndian(4, filterSize + 1), [INDEX_RANGE], [1] + IndexFilterBytes(f));
  }

  function UdfOpField(st: Statement): Field
  {
    Field(UDF_OP, [if st.bins.NoBins? then 2 else 1])
  }

  method EstimateAggregation(buf: Buffer, st: Statement) returns (count: nat)
    modifies buf`offset
    ensures buf.offset == old(buf.offset) + |FieldsBytes(AggregationFields(st))|
    ensures count == |AggregationFields(st)|
  {
    hide FieldBytes, FieldsBytes, ArgsField;
    NothingInside();
    if st.aggregation.None? {
      return 0;
    }
    var a := st.aggregation.value;
    buf.Skip(1 + 5);
    var _ := EstimateUdfSize(buf, a.packageName, a.functionName, a.args);
    FieldsJoin([UdfOpField(st)], UdfFields(a.packageName, a.functionName, a.args));
    OneField(UdfOpField(st));
    FieldLength(UdfOpField(st));
    return 4;
  }

  method WriteAggregation(buf: Buffer, st: Statement)
    requires Room(buf, |FieldsBytes(AggregationFields(st))|)
    modifies buf
    ensures buf.Holds(old(buf.data), old(buf.offset), FieldsBytes(AggregationFields(st)))
  {
    hide Splice, FieldBytes, FieldsBytes, UdfFields;
    NothingDone(buf);
    if st.aggregation.Some? {
      var a := st.aggregation.value;
      ghost var d, at, op, udf := buf.data, buf.offset, [UdfOpField(st)], UdfFields(a.packageName, a.functionName, a.args);
      FieldsJoin(op, udf);
      OneField(UdfOpField(st));
      WriteField(buf, UDF_OP, [if st.bins.NoBins? then 2 else 1]);
      WriteUdf(buf, a.packageName, a.functionName, a.args);
      GroupAdd(buf, d, at, op, udf);
    }
  }

  function IndexNameOf(st: Statement): bytes
  {
    if st.indexName.Some? then st.indexName.value else []
  }

  method EstimateQueryFields(buf: Buffer, filter: Option<FilterExpression>, st: Statement,
                             ghost taskId: u64, partitions: seq<u16>)
    returns (count: nat, filterSize: nat, binListSize: nat, expSize: nat)
    requires ValidStatement(st) && ValidFilter(filter)
    modifies buf`offset
    ensures buf.offset == old(buf.offset) + |FieldsBytes(QueryFields(st, filter, taskId, partitions))|
                          + if CountsAbsentField(st) then 6 else 0
    ensures count == |QueryFields(st, filter, taskId, partitions)| + if CountsAbsentField(st) then 1 else 0
    ensures filter.Some? ==> expSize == |EncExp(filter.value)|
    ensures st.filters.Some? ==> filterSize == 1 + |IndexFilterBytes(st.filters.value)|
    ensures st.filters.Some? && st.bins.SomeBins? ==> binListSize == |BinListField(st.bins.names).body|
  {
    hide FieldsBytes, NonEmptyField, FilterFields, IndexFields, AggregationFields, BigEndian, EncExp, IndexFilterBytes;
    hide BinListField, ValidStatement, Packable;
    ghost var ns, name, table := NonEmptyField(NAMESPACE, st.namespace), NonEmptyField(INDEX_NAME, IndexNameOf(st)),
                                 NonEmptyField(TABLE, st.setName);
    ghost var task, index := [Field(TRAN_ID, BigEndian(8, taskId))], IndexFields(st, partitions);
    ghost var exp, agg := FilterFields(filter), AggregationFields(st);
    SingleSizes(TRAN_ID, 8, taskId, partitions);
    FilterCount(filter);
    var n := EstimateNonEmpty(buf, NAMESPACE, st.namespace);
    var m := EstimateNonEmpty(buf, TABLE, st.setName);
    var k := EstimateNonEmpty(buf, INDEX_NAME, IndexNameOf(st));
    buf.Skip(8 + 5);
    count, filterSize, binListSize := EstimateIndexFields(buf, st, partitions);
    expSize := EstimateFilterSize(buf, filter);
    if expSize > 0 {
      count := count + 1;
    }
    var a := EstimateAggregation(buf, st);
    count := count + n + m + k + 1 + a;
    FieldsJoin(ns, name);
    FieldsJoin(ns + name, table);
    FieldsJoin(ns + name + table, task);
    FieldsJoin(ns + name + table + task, index);
    FieldsJoin(ns + name + table + task + index, exp);
    FieldsJoin(ns + name + table + task + index + exp, agg);
    assert ns + name + table + task + index + exp + agg == QueryFields(st, filter, taskId, partitions);
  }

  /** The front of the fields, up to the task id. */
  method WriteQueryFront(buf: Buffer, st: Statement, taskId: u64)
    requires Room(buf, |FieldsBytes(QueryFront(st, taskId))|)
    modifies buf
    ensures buf.Holds(old(buf.data), old(buf.offset), FieldsBytes(QueryFront(st, taskId)))
  {
    hide Splice, FieldBytes, FieldsBytes, NonEmptyField, BigEndian;
    ghost var d, at, all := buf.data, buf.offset, QueryFront(st, taskId);
    ghost var ns, name, table := NonEmptyField(NAMESPACE, st.namespace), NonEmptyField(INDEX_NAME, IndexNameOf(st)),
                                 NonEmptyField(TABLE, st.setName);
    FieldsJoin(ns, name);
    GroupRoom(ns, name, all);
    GroupRoom(ns + name, table, all);
    FieldsRoom(ns + name + table, Field(TRAN_ID, BigEndian(8, taskId)), all);
    FieldsJoin(ns + name, table);
    WriteNonEmpty(buf, NAMESPACE, st.namespace);
    WriteNonEmpty(buf, INDEX_NAME, IndexNameOf(st));
    GroupAdd(buf, d, at, ns, name);
    WriteNonEmpty(buf, TABLE, st.setName);
    GroupAdd(buf, d, at, ns + name, table);
    WriteU64Field(buf, TRAN_ID, 8, taskId);
    FieldsAdd(buf, d, at, ns + name + table, Field(TRAN_ID, BigEndian(8, taskId)));
  }

  function QueryFront(st: Statement, taskId: u64): seq<Field>
  {
    NonEmptyField(NAMESPACE, st.namespace) + NonEmptyField(INDEX_NAME, IndexNameOf(st))
    + NonEmptyField(TABLE, st.setName) + [Field(TRAN_ID, BigEndian(8, taskId))]
  }

  method WriteQueryFields(buf: Buffer, filter: Option<FilterExpression>, st: Statement, taskId: u64, partitions: seq<u16>,
                          filterSize: nat, binListSize: nat, expSize: nat)
    requires ValidStatement(st) && ValidFilter(filter)
    requires filter.Some? ==> expSize == |EncExp(filter.value)|
    requires st.filters.Some? ==> filterSize == 1 + |IndexFilterBytes(st.filters.value)|
    requires st.filters.Some? && st.bins.SomeBins? ==> binListSize == |BinListField(st.bins.names).body|
    requires Room(buf, |FieldsBytes(QueryFields(st, filter, taskId, partitions))|)
    modifies buf
    ensures buf.Holds(old(buf.data), old(buf.offset), FieldsBytes(QueryFields(st, filter, taskId, partitions)))
  {
    hide Splice, FieldBytes, FieldsBytes, QueryFront, IndexFields, AggregationFields, EncExp, IndexFilterBytes;
    hide BinListField, ValidStatement, Packable;
    ghost var d, at, all := buf.data, buf.offset, QueryFields(st, filter, taskId, partitions);
    ghost var front, index := QueryFront(st, taskId), IndexFields(st, partitions);
    ghost var exp, agg := FilterFields(filter), AggregationFields(st);
    QueryFieldsGrouped(st, filter, taskId, partitions);
    FieldsJoin(front, index);
    FieldsJoin(front + index, exp);
    GroupRoom(front, index, all);
    GroupRoom(front + index, exp, all);
    GroupRoom(front + index + exp, agg, all);
    WriteQueryFront(buf, st, taskId);
    WriteIndexFields(buf, st, partitions, filterSize, binListSize);
    GroupAdd(buf, d, at, front, index);
    WriteOptionalFilter(buf, filter, expSize);
    GroupAdd(buf, d, at, front + index, exp);
    WriteAggregation(buf, st);
    GroupAdd(buf, d, at, front + index + exp, agg);
  }

  lemma QueryFieldsGrouped(st: Statement, filter: Option<FilterExpression>, taskId: u64, partitions: seq<u16>)
    requires ValidStatement(st) && ValidFilter(filter)
    ensures QueryFields(st, filter, taskId, partitions)
         == QueryFront(st, taskId) + IndexFields(st, partitions) + FilterFields(filter) + AggregationFields(st)
  {
    hide NonEmptyField, IndexFields, FilterFields, AggregationFields, BigEndian;
  }

  method WriteOptionalFilter(buf: Buffer, filter: Option<FilterExpression>, size: nat)
    requires ValidFilter(filter) && (filter.Some? ==> size == |EncExp(filter.value)|)
    requires Room(buf, |FieldsBytes(FilterFields(filter))|)
    modifies buf
    ensures buf.Holds(old(buf.data), old(buf.offset), FieldsBytes(FilterFields(filter)))
  {
    hide Splice, FieldBytes, FieldsBytes, EncExp, Packable;
    NothingDone(buf);
    if filter.Some? {
      OneField(Field(FILTER_EXP, EncExp(filter.value)));
      WriteFilterExpression(buf, filter.value, size);
    }
  }

  /**
   The outcome of set_query: the message, and behind it the bytes of a field that was counted but not
   written, which is also one too many in the header.
   */
  ghost predicate QuerySent(buf: Buffer, r: Outcome<()>, c: Command, absent: bool)
    reads buf
  {
    var extra := if absent then 6 else 0;
    if CommandSize(c) + extra > 1024 * 1024 + 8 then r.Err?
    else
      && r == Ok(())
      && |buf.data| == CommandSize(c) + extra
      && buf.data[..CommandSize(c)] == Prelude(CommandSize(c))
                                       + HeaderTail(c.header, |c.fields| + (if absent then 1 else 0), |c.ops|) + Body(c)
  }

  method EstimateQueryOps(buf: Buffer, st: Statement) returns (count: nat)
    modifies buf`offset
    ensures buf.offset == old(buf.offset) + |OpsBytes(QueryOps(st))|
    ensures count == |QueryOps(st)|
  {
    hide OpsBytes, NameOps;
    NothingInside();
    count := 0;
    if st.filters.None? && st.bins.SomeBins? {
      EstimateNames(buf, st.bins.names);
      count := |st.bins.names|;
    }
  }

  method WriteQueryOps(buf: Buffer, st: Statement)
    requires Room(buf, |OpsBytes(QueryOps(st))|)
    modifies buf
    ensures buf.Holds(old(buf.data), old(buf.offset), OpsBytes(QueryOps(st)))
  {
    hide Splice, OpsBytes, NameOps;
    NothingInside();
    SpliceNothing(buf.data, buf.offset);
    if st.filters.None? && st.bins.SomeBins? {
      WriteNames(buf, st.bins.names);
    }
  }

  method SetQuery(buf: Buffer, p: BasePolicy, st: Statement, write: bool, taskId: u64, partitions: seq<u16>)
    returns (r: Outcome<()>)
    requires ValidStatement(st) && ValidFilter(p.filter)
    modifies buf
    ensures QuerySent(buf, r, QueryCommand(p, st, write, taskId, partitions), CountsAbsentField(st))
    ensures r.Ok? ==>
              var extra := if st.filters.Some? && st.bins == SomeBins([]) then 6 else 0;
              |buf.data| >= extra && TellsQuery(buf.data[..|buf.data| - extra], p, st, write, taskId, partitions)
  {
    hide TellsQuery;
    AbsentField(st);
    hide Splice, FieldsBytes, OpsBytes, HeaderTail, PlainHeader, QueryFields, QueryOps, At, Prelude, BitOr, Packable,
         EncExp;
    hide ValidStatement, IndexFilterBytes, BinListField, CountsAbsentField;
    ghost var c := QueryCommand(p, st, write, taskId, partitions);
    ghost var absent := CountsAbsentField(st);
    buf.Begin();
    var fieldCount, filterSize, binListSize, expSize := EstimateQueryFields(buf, p.filter, st, taskId, partitions);
    var opCount := EstimateQueryOps(buf, st);
    var _ :- buf.SizeBuffer();
    var info1 := if st.bins.NoBins? then BitOr(INFO1_READ, INFO1_NOBINDATA) else INFO1_READ;
    WriteHeader(buf, p.consistencyAll, info1, if write then INFO2_WRITE else 0, fieldCount, opCount);
    ghost var d := buf.data;
    WriteQueryFields(buf, p.filter, st, taskId, partitions, filterSize, binListSize, expSize);
    WriteQueryOps(buf, st);
    PackedJoin(buf, d, HEADER_SIZE, FieldsBytes(c.fields), OpsBytes(c.ops));
    End(buf);
    Finished(d, HeaderTail(c.header, fieldCount, |c.ops|), Body(c));
    QueryTold(p, st, write, taskId, partitions);
    return Ok(());
  }

  lemma AbsentField(st: Statement)
    ensures CountsAbsentField(st) <==> st.filters.Some? && st.bins == SomeBins([])
  {
  }

  /** A query that was sent can be read back exactly if it counts no field that is absent. */
  lemma QueryFraming(buf: Buffer, r: Outcome<()>, c: Command, absent: bool)
    requires QuerySent(buf, r, c, absent) && r.Ok? && |c.fields| < 0x1_0000
    ensures ReadCommand(buf.data) == Some(c) <==> !absent && |c.ops| < 0x1_0000
  {
    hide Body, HeaderTail, Prelude, ReadFields, ReadOps, ReadHeader;
    var d := buf.data;
    if absent {
      PreludeSize(CommandSize(c));
      assert d[..8] == d[..CommandSize(c)][..8] == Prelude(CommandSize(c)) by {
        Associates(Prelude(CommandSize(c)), HeaderTail(c.header, |c.fields| + 1, |c.ops|), Body(c));
      }
    } else {
      assert d == d[..CommandSize(c)] == CommandBytes(c);
      FramingRoundTrip(c);
    }
  }

  /** The header's field count never wraps. */
  lemma FewFields(key: Key, sendKey: bool, filter: Option<FilterExpression>, p: ScanPolicy, st: Statement,
                  taskId: u64, partitions: seq<u16>)
    requires ValidKey(key) && ValidFilter(filter) && ValidFilter(p.filter) && ValidStatement(st)
    ensures |RecordFields(key, sendKey, filter)| <= 5
    ensures |ScanFields(p, st.namespace, st.setName, taskId, partitions)| <= 6
    ensures |QueryFields(st, filter, taskId, partitions)| <= 12
  {
    hide Storable, ParticleBytes, ParticleType, EncExp, Packable, QueryFields, ValidStatement, BigEndian, PidField;
    QueryHasFewFields(filter, st, taskId, partitions);
  }

  /** Every other command that was sent can be read back, with nothing left over. */
  lemma SentIsFramed(buf: Buffer, r: Outcome<()>, c: Command)
    requires Sent(buf, r, c) && r.Ok? && |c.fields| < 0x1_0000
    ensures ReadCommand(buf.data) == Some(c) <==> |c.ops| < 0x1_0000
    ensures MsgSize(buf.data) == |buf.data| - 8
  {
    hide Body, HeaderTail, Prelude, ReadFields, ReadOps, ReadHeader;
    FramingRoundTrip(c);
    PreludeSize(CommandSize(c));
    assert CommandBytes(c)[..8] == Prelude(CommandSize(c)) by {
      Associates(Prelude(CommandSize(c)), HeaderTail(c.header, |c.fields|, |c.ops|), Body(c));
    }
  }

  /**
   A query that was sent is read back as it was asked for, exactly if it does not combine an index filter with an
   empty list of bins, and its bin names can be counted.
   */
  lemma QueryIsReadBack(buf: Buffer, r: Outcome<()>, p: BasePolicy, st: Statement, write: bool, taskId: u64,
                        partitions: seq<u16>)
    requires ValidStatement(st) && ValidFilter(p.filter) && r.Ok?
    requires QuerySent(buf, r, QueryCommand(p, st, write, taskId, partitions), CountsAbsentField(st))
    ensures ReadCommand(buf.data) == Some(QueryCommand(p, st, write, taskId, partitions)) <==>
      !(st.filters.Some? && st.bins == SomeBins([])) && (st.filters.None? && st.bins.SomeBins? ==> |st.bins.names| < 0x1_0000)
  {
    hide QuerySent, ReadCommand, QueryFields, PlainHeader, ValidIndexFilter, Packable;
    QueryHasFewFields(p.filter, st, taskId, partitions);
    QueryFraming(buf, r, QueryCommand(p, st, write, taskId, partitions), CountsAbsentField(st));
  }

  lemma QueryHasFewFields(filter: Option<FilterExpression>, st: Statement, taskId: u64, partitions: seq<u16>)
    requires ValidStatement(st) && ValidFilter(filter)
    ensures |QueryFields(st, filter, taskId, partitions)| <= 12
  {
    hide Storable, ParticleBytes, ParticleType, EncExp, Packable, IndexFilterBytes, BinListField, ArgsField, BigEndian;
  }
}
