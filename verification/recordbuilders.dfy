/**
 The builders of commands on one record (src/commands/buffer.rs): the size pass, then the write pass.
 */
module RecordBuilders {
  import opened Options
  import opened Bytes
  import opened Values
  import opened CommandBuffer
  import opened Encoder
  import opened RoundTrip
  import opened Particles
  import opened Expressions
  import opened Messages
  import opened Commands
  import opened Builders
  import opened Headers
  import opened Told

  method SetWrite(buf: Buffer, p: WritePolicy, op: byte, key: Key, bins: seq<Bin>) returns (r: Outcome<()>)
    requires ValidKey(key) && ValidFilter(p.filter)
    requires forall i :: 0 <= i < |bins| ==> Storable(bins[i].value)
    modifies buf
    ensures Sent(buf, r, WriteCommand(p, op, key, bins))
    ensures r.Ok? ==> TellsKey(buf.data, key, p.sendKey, p.filter)
    ensures r.Ok? ==> PolicyTold(buf.data, p, 0, 1) && TellsOps(buf.data, Valued(op, bins))
  {
    hide Splice, FieldsBytes, OpsBytes, HeaderTail, PolicyHeader, RecordFields, BinOps, Storable, At, CommandBytes,
         TellsKey, PolicyTold, TellsAttributes, TellsOps;
    ghost var c := WriteCommand(p, op, key, bins);
    buf.Begin();
    var fieldCount, filterSize := EstimateKeyAndFilter(buf, key, p.sendKey, p.filter);
    EstimateBins(buf, bins, op);
    var _ :- buf.SizeBuffer();
    WriteHeaderWithPolicy(buf, p, 0, INFO2_WRITE, fieldCount, |bins|);
    ghost var d := buf.data;
    WriteKeyAndFilter(buf, key, p.sendKey, p.filter, filterSize);
    WriteBins(buf, bins, op);
    PackedJoin(buf, d, HEADER_SIZE, FieldsBytes(c.fields), OpsBytes(c.ops));
    Finish(buf, d, c);
    WriteTold(p, op, key, bins);
    return Ok(());
  }

  lemma OnlyFields(c: Command)
    requires c.ops == []
    ensures Body(c) == FieldsBytes(c.fields)
  {
    hide FieldsBytes;
    assert OpParts([]) == [];
  }

  lemma OneOp(op: bytes)
    ensures OpsBytes([op]) == OpBytes(op)
  {
    hide OpBytes;
    OpsFront([op]);
    assert [op][1..] == [] && OpParts([]) == [];
  }

  method SetDelete(buf: Buffer, p: WritePolicy, key: Key) returns (r: Outcome<()>)
    requires ValidKey(key) && ValidFilter(p.filter)
    modifies buf
    ensures Sent(buf, r, DeleteCommand(p, key))
    ensures r.Ok? ==> TellsKey(buf.data, key, false, p.filter)
    ensures r.Ok? ==> PolicyTold(buf.data, p, 0, 1 + 2) && TellsOps(buf.data, [])
  {
    hide Splice, FieldsBytes, OpsBytes, HeaderTail, PolicyHeader, RecordFields, At, CommandBytes, TellsKey,
         PolicyTold, TellsAttributes, TellsOps, BitOr;
    ghost var c := DeleteCommand(p, key);
    OnlyFields(c);
    buf.Begin();
    var fieldCount, filterSize := EstimateKeyAndFilter(buf, key, false, p.filter);
    var _ :- buf.SizeBuffer();
    WriteHeaderWithPolicy(buf, p, 0, BitOr(INFO2_WRITE, INFO2_DELETE), fieldCount, 0);
    ghost var d := buf.data;
    WriteKeyAndFilter(buf, key, false, p.filter, filterSize);
    Finish(buf, d, c);
    DeleteTold(p, key);
    return Ok(());
  }

  method SetTouch(buf: Buffer, p: WritePolicy, key: Key) returns (r: Outcome<()>)
    requires ValidKey(key) && ValidFilter(p.filter)
    modifies buf
    ensures Sent(buf, r, TouchCommand(p, key))
    ensures r.Ok? ==> TellsKey(buf.data, key, p.sendKey, p.filter)
    ensures r.Ok? ==> PolicyTold(buf.data, p, 0, 1) && TellsOps(buf.data, [[11, 0, 0, 0]])
  {
    hide Splice, FieldsBytes, OpsBytes, HeaderTail, PolicyHeader, RecordFields, At, CommandBytes, TellsKey,
         PolicyTold, TellsAttributes, TellsOps, OpPayload, OpBytes;
    ghost var c := TouchCommand(p, key);
    OneOp(c.ops[0]);
    PayloadLength(OP_TOUCH, 0, [], []);
    buf.Begin();
    var fieldCount, filterSize := EstimateKeyAndFilter(buf, key, p.sendKey, p.filter);
    buf.Skip(8);
    var _ :- buf.SizeBuffer();
    WriteHeaderWithPolicy(buf, p, 0, INFO2_WRITE, fieldCount, 1);
    ghost var d := buf.data;
    WriteKeyAndFilter(buf, key, p.sendKey, p.filter, filterSize);
    WriteOperationForBinName(buf, [], OP_TOUCH);
    PackedJoin(buf, d, HEADER_SIZE, FieldsBytes(c.fields), OpsBytes(c.ops));
    Finish(buf, d, c);
    TouchTold(p, key);
    return Ok(());
  }

  method SetExists(buf: Buffer, p: WritePolicy, key: Key) returns (r: Outcome<()>)
    requires ValidKey(key) && ValidFilter(p.filter)
    modifies buf
    ensures Sent(buf, r, ExistsCommand(p, key))
    ensures r.Ok? ==> TellsKey(buf.data, key, false, p.filter)
    ensures r.Ok? ==> TellsAttributes(buf.data, p.base.consistencyAll, 1 + 32, 0) && TellsOps(buf.data, [])
  {
    hide Splice, FieldsBytes, OpsBytes, HeaderTail, PlainHeader, RecordFields, At, CommandBytes, TellsKey,
         PolicyTold, TellsAttributes, TellsOps, BitOr;
    ghost var c := ExistsCommand(p, key);
    OnlyFields(c);
    buf.Begin();
    var fieldCount, filterSize := EstimateKeyAndFilter(buf, key, false, p.filter);
    var _ :- buf.SizeBuffer();
    WriteHeader(buf, p.base.consistencyAll, BitOr(INFO1_READ, INFO1_NOBINDATA), 0, fieldCount, 0);
    ghost var d := buf.data;
    WriteKeyAndFilter(buf, key, false, p.filter, filterSize);
    Finish(buf, d, c);
    ExistsTold(p, key);
    return Ok(());
  }

  method SetRead(buf: Buffer, p: BasePolicy, key: Key, bins: Bins) returns (r: Outcome<()>)
    requires ValidKey(key) && ValidFilter(p.filter)
    modifies buf
    ensures Sent(buf, r, ReadCommandOf(p, key, bins))
    ensures r.Ok? ==> TellsKey(buf.data, key, false, p.filter)
    ensures r.Ok? && bins.NoBins? ==>
              TellsAttributes(buf.data, p.consistencyAll, 1 + 32, 0) && TellsOps(buf.data, Unvalued(1, [[]]))
    ensures r.Ok? && bins.AllBins? ==> TellsAttributes(buf.data, p.consistencyAll, 1 + 2, 0) && TellsOps(buf.data, [])
    ensures r.Ok? && bins.SomeBins? ==>
              TellsAttributes(buf.data, p.consistencyAll, 1, 0) && TellsOps(buf.data, Unvalued(1, bins.names))
  {
    hide Splice, FieldsBytes, OpsBytes, HeaderTail, PlainHeader, RecordFields, At, CommandBytes, TellsKey,
         PolicyTold, TellsAttributes, TellsOps, NameOps;
    match bins
    case NoBins => r := SetReadHeader(buf, p, key);
    case AllBins => r := SetReadForKeyOnly(buf, p, key);
    case SomeBins(names) =>
      ghost var c := ReadCommandOf(p, key, bins);
      buf.Begin();
      var fieldCount, filterSize := EstimateKeyAndFilter(buf, key, false, p.filter);
      EstimateNames(buf, names);
      var _ :- buf.SizeBuffer();
      WriteHeader(buf, p.consistencyAll, INFO1_READ, 0, fieldCount, |names|);
      ghost var d := buf.data;
      WriteKeyAndFilter(buf, key, false, p.filter, filterSize);
      WriteNames(buf, names);
      PackedJoin(buf, d, HEADER_SIZE, FieldsBytes(c.fields), OpsBytes(c.ops));
      Finish(buf, d, c);
      ReadTold(p, key, bins);
      return Ok(());
  }

  method SetReadHeader(buf: Buffer, p: BasePolicy, key: Key) returns (r: Outcome<()>)
    requires ValidKey(key) && ValidFilter(p.filter)
    modifies buf
    ensures Sent(buf, r, ReadHeaderCommand(p, key))
    ensures r.Ok? ==> TellsKey(buf.data, key, false, p.filter)
    ensures r.Ok? ==> TellsAttributes(buf.data, p.consistencyAll, 1 + 32, 0) && TellsOps(buf.data, Unvalued(1, [[]]))
  {
    hide Splice, FieldsBytes, OpsBytes, HeaderTail, PlainHeader, RecordFields, At, CommandBytes, TellsKey,
         PolicyTold, TellsAttributes, TellsOps, OpPayload, OpBytes, BitOr;
    ghost var c := ReadHeaderCommand(p, key);
    OneOp(c.ops[0]);
    PayloadLength(OP_READ, 0, [], []);
    buf.Begin();
    var fieldCount, filterSize := EstimateKeyAndFilter(buf, key, false, p.filter);
    buf.Skip(0 + 8);
    var _ :- buf.SizeBuffer();
    WriteHeader(buf, p.consistencyAll, BitOr(INFO1_READ, INFO1_NOBINDATA), 0, fieldCount, 1);
    ghost var d := buf.data;
    WriteKeyAndFilter(buf, key, false, p.filter, filterSize);
    WriteOperationForBinName(buf, [], OP_READ);
    PackedJoin(buf, d, HEADER_SIZE, FieldsBytes(c.fields), OpsBytes(c.ops));
    Finish(buf, d, c);
    ReadTold(p, key, NoBins);
    return Ok(());
  }

  method SetReadForKeyOnly(buf: Buffer, p: BasePolicy, key: Key) returns (r: Outcome<()>)
    requires ValidKey(key) && ValidFilter(p.filter)
    modifies buf
    ensures Sent(buf, r, ReadAllCommand(p, key))
    ensures r.Ok? ==> TellsKey(buf.data, key, false, p.filter)
    ensures r.Ok? ==> TellsAttributes(buf.data, p.consistencyAll, 1 + 2, 0) && TellsOps(buf.data, [])
  {
    hide Splice, FieldsBytes, OpsBytes, HeaderTail, PlainHeader, RecordFields, At, CommandBytes, TellsKey,
         PolicyTold, TellsAttributes, TellsOps, BitOr;
    ghost var c := ReadAllCommand(p, key);
    OnlyFields(c);
    buf.Begin();
    var fieldCount, filterSize := EstimateKeyAndFilter(buf, key, false, p.filter);
    var _ :- buf.SizeBuffer();
    WriteHeader(buf, p.consistencyAll, BitOr(INFO1_READ, INFO1_GET_ALL), 0, fieldCount, 0);
    ghost var d := buf.data;
    WriteKeyAndFilter(buf, key, false, p.filter, filterSize);
    Finish(buf, d, c);
    ReadTold(p, key, AllBins);
    return Ok(());
  }

  /** The first loop of set_operate: the attributes, and the size of the operations. */
  method CollectOperations(buf: Buffer, p: WritePolicy, os: seq<Operation>) returns (readAttr: byte, writeAttr: byte)
    requires forall i :: 0 <= i < |os| ==> ValidOperation(os[i])
    modifies buf`offset
    ensures (readAttr, writeAttr) == OperateAttrs(p, os)
    ensures buf.offset == old(buf.offset) + |OpsBytes(OperationOps(os))|
  {
    hide OpBytes, OpPayload, ValidOperation, BitOr, DataBytes, DataParticle;
    ghost var at, parts := buf.offset, OpParts(OperationOps(os));
    readAttr, writeAttr := 0, 0;
    for i := 0 to |os|
      invariant (readAttr, writeAttr) == OperateAttrs(p, os[..i])
      invariant buf.offset == at + |Concat(parts[..i])|
    {
      var o := os[i];
      assert os[..i + 1][..i] == os[..i];
      if o.op == OP_READ && o.bin.NoBin? {
        readAttr := BitOr(readAttr, BitOr(INFO1_READ, INFO1_NOBINDATA));
      } else if o.op == OP_READ && o.bin.EveryBin? {
        readAttr := BitOr(readAttr, BitOr(INFO1_READ, INFO1_GET_ALL));
      } else if o.op in {OP_READ, OP_CDT_READ, OP_BIT_READ, OP_HLL_READ, OP_EXP_READ} {
        readAttr := BitOr(readAttr, INFO1_READ);
      } else {
        writeAttr := BitOr(writeAttr, INFO2_WRITE);
      }
      if p.respondPerEachOp || o.data.CdtMapOp? || o.data.CdtBitOp? || o.data.HllOp? || o.data.ExpData? {
        writeAttr := BitOr(writeAttr, INFO2_RESPOND_ALL_OPS);
      }
      ConcatStep(parts, i);
      PayloadLength(o.op, DataParticle(o), OperationName(o), DataBytes(o));
      var size := EstimateOperation(o);
      buf.Skip(size + 8);
    }
    assert parts[..|os|] == parts && os[..|os|] == os;
  }

  method SetOperate(buf: Buffer, p: WritePolicy, key: Key, os: seq<Operation>) returns (r: Outcome<()>)
    requires ValidKey(key) && ValidFilter(p.filter)
    requires forall i :: 0 <= i < |os| ==> ValidOperation(os[i])
    modifies buf
    ensures Sent(buf, r, OperateCommand(p, key, os))
    ensures r.Ok? ==> TellsKey(buf.data, key, p.sendKey && (SomeWrites(os) || SomeRespond(p, os)), p.filter)
    ensures r.Ok? && (SomeWrites(os) || SomeRespond(p, os)) ==>
              PolicyTold(buf.data, p, OperateRead(os),
                         (if SomeWrites(os) then 1 else 0) + (if SomeRespond(p, os) then 128 else 0))
    ensures r.Ok? && !SomeWrites(os) && !SomeRespond(p, os) ==>
              TellsAttributes(buf.data, p.base.consistencyAll, OperateRead(os), 0)
    ensures r.Ok? ==> TellsOps(buf.data, OperationsTold(os))
  {
    hide Splice, FieldsBytes, OpsBytes, HeaderTail, PlainHeader, PolicyHeader, RecordFields, At, CommandBytes,
         TellsKey, PolicyTold, TellsAttributes, TellsOps;
    hide OperationOps, ValidOperation, OperateAttrs;
    ghost var c := OperateCommand(p, key, os);
    buf.Begin();
    var readAttr, writeAttr := CollectOperations(buf, p, os);
    var sendKey := p.sendKey && writeAttr != 0;
    var fieldCount, filterSize := EstimateKeyAndFilter(buf, key, sendKey, p.filter);
    var _ :- buf.SizeBuffer();
    if writeAttr == 0 {
      WriteHeader(buf, p.base.consistencyAll, readAttr, writeAttr, fieldCount, |os|);
    } else {
      WriteHeaderWithPolicy(buf, p, readAttr, writeAttr, fieldCount, |os|);
    }
    ghost var d := buf.data;
    WriteKeyAndFilter(buf, key, sendKey, p.filter, filterSize);
    WriteOperations(buf, os);
    PackedJoin(buf, d, HEADER_SIZE, FieldsBytes(c.fields), OpsBytes(c.ops));
    Finish(buf, d, c);
    OperateTold(p, key, os);
    return Ok(());
  }

  /** The package, the function and the arguments of a call. */
  method WriteUdf(buf: Buffer, packageName: bytes, functionName: bytes, args: Option<seq<Value>>)
    requires Room(buf, |FieldsBytes(UdfFields(packageName, functionName, args))|)
    modifies buf
    ensures buf.Holds(old(buf.data), old(buf.offset), FieldsBytes(UdfFields(packageName, functionName, args)))
  {
    hide Splice, FieldBytes, FieldsBytes, ArgsField;
    ghost var d, at := buf.data, buf.offset;
    ghost var all := UdfFields(packageName, functionName, args);
    ghost var p, f, a := all[0], all[1], all[2];
    NothingDone(buf);
    assert [] + [p] == [p] && [p] + [f] == [p, f] && [p, f] + [a] == all;
    FieldsRoom([], p, all);
    FieldsRoom([p], f, all);
    FieldsRoom([p, f], a, all);
    WriteField(buf, UDF_PACKAGE_NAME, packageName);
    FieldsAdd(buf, d, at, [], p);
    WriteField(buf, UDF_FUNCTION, functionName);
    FieldsAdd(buf, d, at, [p], f);
    WriteArgs(buf, args);
    FieldsAdd(buf, d, at, [p, f], a);
  }

  method SetUdf(buf: Buffer, p: WritePolicy, key: Key, packageName: bytes, functionName: bytes, args: Option<seq<Value>>)
    returns (r: Outcome<()>)
    requires ValidKey(key) && ValidFilter(p.filter)
    modifies buf
    ensures Sent(buf, r, UdfCommand(p, key, packageName, functionName, args))
    ensures r.Ok? ==> TellsUdf(buf.data, key, p.sendKey, p.filter, packageName, functionName, args)
    ensures r.Ok? ==> TellsAttributes(buf.data, p.base.consistencyAll, 0, 1) && TellsOps(buf.data, [])
  {
    hide Splice, FieldsBytes, OpsBytes, HeaderTail, PlainHeader, KeyFields, FilterFields, UdfFields, At,
         CommandBytes, TellsUdf, PolicyTold, TellsAttributes, TellsOps;
    ghost var c := UdfCommand(p, key, packageName, functionName, args);
    ghost var keyed, called := RecordFields(key, p.sendKey, p.filter), UdfFields(packageName, functionName, args);
    OnlyFields(c);
    FieldsJoin(keyed, called);
    FieldsJoin(KeyFields(key, p.sendKey), FilterFields(p.filter));
    buf.Begin();
    var fieldCount := EstimateKeySize(buf, key, p.sendKey);
    var udfCount := EstimateUdfSize(buf, packageName, functionName, args);
    var filterSize := EstimateFilterSize(buf, p.filter);
    fieldCount := fieldCount + udfCount;
    if filterSize > 0 {
      fieldCount := fieldCount + 1;
    }
    assert |FilterFields(p.filter)| == if filterSize > 0 then 1 else 0 by {
      FilterCount(p.filter);
    }
    var _ :- buf.SizeBuffer();
    WriteHeader(buf, p.base.consistencyAll, 0, INFO2_WRITE, fieldCount, 0);
    ghost var d := buf.data;
    WriteKeyAndFilter(buf, key, p.sendKey, p.filter, filterSize);
    WriteUdf(buf, packageName, functionName, args);
    PackedJoin(buf, d, HEADER_SIZE, FieldsBytes(keyed), FieldsBytes(called));
    Finish(buf, d, c);
    UdfTold(p, key, packageName, functionName, args);
    return Ok(());
  }

  lemma FilterCount(filter: Option<FilterExpression>)
    requires ValidFilter(filter)
    ensures |FilterFields(filter)| == if filter.Some? then 1 else 0
  {
  }
}
