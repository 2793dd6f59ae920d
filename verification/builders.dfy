/**
 The command builders (src/commands/buffer.rs).  A builder first only adds up the offset, then sizes the
 buffer to it, then writes.  Each is proved to leave exactly the bytes of its message in the buffer,
 so what the reused buffer held before is gone, and to fail exactly if the message is too long.
 */
module Builders {
  import opened Options
  import opened Bytes
  import opened Values
  import opened CommandBuffer
  import opened Encoding
  import opened Encoder
  import opened RoundTrip
  import opened Particles
  import opened Cdt
  import opened Expressions
  import opened Messages
  import opened Commands
  import opened Told

  /** A builder either sent `c`, or refused it because it is longer than a buffer may be. */
  ghost predicate Sent(buf: Buffer, r: Outcome<()>, c: Command)
    reads buf
  {
    if CommandSize(c) > 1024 * 1024 + 8 then r.Err?
    else r == Ok(()) && buf.data == CommandBytes(c) && buf.offset == 8
  }

  // ---------------------------------------------------------------------------------------------
  // Growing lists of fields and operations

  lemma FieldsGrow(done: seq<Field>, f: Field)
    ensures FieldsBytes(done + [f]) == FieldsBytes(done) + FieldBytes(f)
    ensures |FieldsBytes(done + [f])| == |FieldsBytes(done)| + 5 + |f.body|
  {
    hide FieldBytes, FieldsBytes;
    FieldsJoin(done, [f]);
    OneField(f);
    FieldLength(f);
  }

  lemma FieldsRoom(done: seq<Field>, f: Field, all: seq<Field>)
    requires done + [f] <= all
    ensures |FieldsBytes(done)| + |FieldBytes(f)| <= |FieldsBytes(all)|
    ensures |FieldBytes(f)| == 5 + |f.body|
  {
    hide FieldBytes, FieldsBytes;
    assert all == done + [f] + all[|done| + 1..];
    FieldsJoin(done + [f], all[|done| + 1..]);
    FieldsGrow(done, f);
    FieldLength(f);
  }

  /** The next field behind those that are done. */
  lemma FieldsAdd(buf: Buffer, d: bytes, at: nat, done: seq<Field>, f: Field)
    requires at + |FieldsBytes(done)| <= |d|
    requires buf.Holds(Splice(d, at, FieldsBytes(done)), at + |FieldsBytes(done)|, FieldBytes(f))
    ensures buf.Holds(d, at, FieldsBytes(done + [f]))
  {
    hide FieldBytes, FieldsBytes, Splice;
    FieldsGrow(done, f);
    PackedJoin(buf, d, at, FieldsBytes(done), FieldBytes(f));
  }

  lemma NothingDone(buf: Buffer)
    requires buf.offset <= |buf.data|
    ensures FieldsBytes([]) == [] && buf.Holds(buf.data, buf.offset, [])
  {
    assert FieldParts([]) == [];
    SpliceNothing(buf.data, buf.offset);
  }

  // ---------------------------------------------------------------------------------------------
  // Writers of fields

  method WriteFieldHeader(buf: Buffer, size: nat, code: byte)
    requires Room(buf, 5)
    modifies buf
    ensures buf.Holds(old(buf.data), old(buf.offset), BigEndian(4, size + 1) + [code])
  {
    hide Splice, BigEndian;
    ghost var d, at := buf.data, buf.offset;
    buf.WriteU32(size + 1);
    buf.WriteU8(code);
    PackedJoin(buf, d, at, BigEndian(4, size + 1), [code]);
  }

  /** write_field_string and write_field_bytes */
  method WriteField(buf: Buffer, code: byte, body: bytes)
    requires Room(buf, |FieldBytes(Field(code, body))|)
    modifies buf
    ensures buf.Holds(old(buf.data), old(buf.offset), FieldBytes(Field(code, body)))
  {
    hide Splice, BigEndian;
    ghost var d, at := buf.data, buf.offset;
    WriteFieldHeader(buf, |body|, code);
    buf.WriteBytes(body);
    PackedJoin(buf, d, at, BigEndian(4, |body| + 1) + [code], body);
    Associates(BigEndian(4, |body| + 1), [code], body);
  }

  method WriteFieldValue(buf: Buffer, v: Value, code: byte)
    requires Storable(v) && Room(buf, |FieldBytes(Field(code, [ParticleType(v)] + ParticleBytes(v)))|)
    modifies buf
    ensures buf.Holds(old(buf.data), old(buf.offset), FieldBytes(Field(code, [ParticleType(v)] + ParticleBytes(v))))
  {
    hide Splice, BigEndian, ParticleBytes, ParticleType;
    ghost var d, at := buf.data, buf.offset;
    var size := EstimateSize(v);
    WriteFieldHeader(buf, size + 1, code);
    ghost var h := BigEndian(4, size + 2) + [code];
    buf.WriteU8(ParticleType(v));
    PackedJoin(buf, d, at, h, [ParticleType(v)]);
    WriteTo(v, buf);
    PackedJoin(buf, d, at, h + [ParticleType(v)], ParticleBytes(v));
    Associates(h, [ParticleType(v)], ParticleBytes(v));
    Associates(BigEndian(4, size + 2), [code], [ParticleType(v)] + ParticleBytes(v));
  }

  method WriteFilterExpression(buf: Buffer, filter: FilterExpression, size: nat)
    requires Packable(filter) && size == |EncExp(filter)|
    requires Room(buf, |FieldBytes(Field(FILTER_EXP, EncExp(filter)))|)
    modifies buf
    ensures buf.Holds(old(buf.data), old(buf.offset), FieldBytes(Field(FILTER_EXP, EncExp(filter))))
  {
    hide Splice, BigEndian, EncExp;
    ghost var d, at := buf.data, buf.offset;
    WriteFieldHeader(buf, size, FILTER_EXP);
    var _ := Pack(buf, filter);
    PackedJoin(buf, d, at, BigEndian(4, size + 1) + [FILTER_EXP], EncExp(filter));
    Associates(BigEndian(4, size + 1), [FILTER_EXP], EncExp(filter));
  }

  method PackArgs(buf: Buffer?, args: Option<seq<Value>>) returns (size: nat)
    requires Room(buf, |ArgsField(args).body|)
    modifies buf
    ensures Packed(buf, old(DataOf(buf)), old(OffsetOf(buf)), size, ArgsField(args).body)
  {
    hide Splice, EncArray, ArrayHeader;
    if args.Some? {
      size := PackArray(buf, args.value);
    } else {
      size := PackArrayBegin(buf, 0);
    }
  }

  method WriteArgs(buf: Buffer, args: Option<seq<Value>>)
    requires Room(buf, |FieldBytes(ArgsField(args))|)
    modifies buf
    ensures buf.Holds(old(buf.data), old(buf.offset), FieldBytes(ArgsField(args)))
  {
    hide Splice, BigEndian, EncArray, ArrayHeader;
    ghost var d, at := buf.data, buf.offset;
    var size := PackArgs(null, args);
    WriteFieldHeader(buf, size, UDF_ARG_LIST);
    var _ := PackArgs(buf, args);
    PackedJoin(buf, d, at, BigEndian(4, size + 1) + [UDF_ARG_LIST], ArgsField(args).body);
    Associates(BigEndian(4, size + 1), [UDF_ARG_LIST], ArgsField(args).body);
  }

  method WriteU64Field(buf: Buffer, code: byte, width: nat, v: nat)
    requires Room(buf, |FieldBytes(Field(code, BigEndian(width, v)))|)
    modifies buf
    ensures buf.Holds(old(buf.data), old(buf.offset), FieldBytes(Field(code, BigEndian(width, v))))
  {
    hide Splice, BigEndian;
    ghost var d, at := buf.data, buf.offset;
    WriteFieldHeader(buf, width, code);
    buf.WriteUnsigned(width, v);
    PackedJoin(buf, d, at, BigEndian(4, width + 1) + [code], BigEndian(width, v));
    Associates(BigEndian(4, width + 1), [code], BigEndian(width, v));
  }

  method WriteKey(buf: Buffer, key: Key, sendKey: bool)
    requires ValidKey(key) && Room(buf, |FieldsBytes(KeyFields(key, sendKey))|)
    modifies buf
    ensures buf.Holds(old(buf.data), old(buf.offset), FieldsBytes(KeyFields(key, sendKey)))
    ensures |buf.data| < 0x1_0000_0000 ==>
              var r := ReadFields(buf.data, old(buf.offset), KeyCount(key, sendKey));
              r.Some? && NamesRecord(r.value.0, key, sendKey, None) && r.value.1 == buf.offset
  {
    hide Splice, FieldBytes, FieldsBytes, Storable, ParticleBytes, ParticleType, At, NamesRecord, ReadFields, KeyCount;
    ghost var d, at := buf.data, buf.offset;
    ghost var all, done := KeyFields(key, sendKey), [];
    NothingDone(buf);
    if key.namespace != [] {
      FieldsRoom(done, Field(NAMESPACE, key.namespace), all);
      WriteField(buf, NAMESPACE, key.namespace);
      FieldsAdd(buf, d, at, done, Field(NAMESPACE, key.namespace));
      done := done + [Field(NAMESPACE, key.namespace)];
    }
    if key.setName != [] {
      FieldsRoom(done, Field(TABLE, key.setName), all);
      WriteField(buf, TABLE, key.setName);
      FieldsAdd(buf, d, at, done, Field(TABLE, key.setName));
      done := done + [Field(TABLE, key.setName)];
    }
    FieldsRoom(done, Field(DIGEST_RIPE, key.digest), all);
    WriteField(buf, DIGEST_RIPE, key.digest);
    FieldsAdd(buf, d, at, done, Field(DIGEST_RIPE, key.digest));
    done := done + [Field(DIGEST_RIPE, key.digest)];
    if sendKey && key.userKey.Some? {
      var v := key.userKey.value;
      FieldsRoom(done, UserKeyFields(key, sendKey)[0], all);
      WriteFieldValue(buf, v, KEY);
      FieldsAdd(buf, d, at, done, UserKeyFields(key, sendKey)[0]);
      done := done + [UserKeyFields(key, sendKey)[0]];
    }
    assert done == all;
    if |buf.data| < 0x1_0000_0000 {
      SpliceAt(d, at, FieldsBytes(all));
      KeyIsNamed(key, sendKey, buf.data, at);
    }
  }

  /** write_key, and write_filter_expression if there is a filter. */
  method WriteKeyAndFilter(buf: Buffer, key: Key, sendKey: bool, filter: Option<FilterExpression>, filterSize: nat)
    requires ValidKey(key) && ValidFilter(filter)
    requires filter.Some? ==> filterSize == |EncExp(filter.value)|
    requires Room(buf, |FieldsBytes(RecordFields(key, sendKey, filter))|)
    modifies buf
    ensures buf.Holds(old(buf.data), old(buf.offset), FieldsBytes(RecordFields(key, sendKey, filter)))
  {
    hide Splice, FieldBytes, FieldsBytes, KeyFields, ValidKey, EncExp, Packable;
    ghost var d, at := buf.data, buf.offset;
    ghost var fields, all := KeyFields(key, sendKey), RecordFields(key, sendKey, filter);
    FieldsJoin(fields, FilterFields(filter));
    WriteKey(buf, key, sendKey);
    if filter.Some? {
      ghost var f := Field(FILTER_EXP, EncExp(filter.value));
      assert all == fields + [f];
      FieldsRoom(fields, f, all);
      WriteFilterExpression(buf, filter.value, filterSize);
      FieldsAdd(buf, d, at, fields, f);
    } else {
      assert fields + [] == fields;
    }
  }

  // ---------------------------------------------------------------------------------------------
  // Estimates of fields

  method EstimateFilterSize(buf: Buffer, filter: Option<FilterExpression>) returns (size: nat)
    requires ValidFilter(filter)
    modifies buf`offset
    ensures buf.offset == old(buf.offset) + |FieldsBytes(FilterFields(filter))|
    ensures size == if filter.Some? then |EncExp(filter.value)| else 0
    ensures size > 0 <==> filter.Some?
  {
    if filter.None? {
      assert FieldParts([]) == [];
      return 0;
    }
    hide EncExp, FieldsBytes, FieldBytes;
    size := Pack(null, filter.value);
    buf.Skip(size + 5);
    OneField(Field(FILTER_EXP, EncExp(filter.value)));
    FieldLength(Field(FILTER_EXP, EncExp(filter.value)));
    ExpNotEmpty(filter.value);
  }

  lemma ExpNotEmpty(e: FilterExpression)
    requires Packable(e)
    ensures |EncExp(e)| > 0
    decreases e
  {
    hide Enc, Concat, EncArguments, StrHeader;
  }

  method EstimateKeySize(buf: Buffer, key: Key, sendKey: bool) returns (count: nat)
    requires ValidKey(key)
    modifies buf`offset
    ensures buf.offset == old(buf.offset) + |FieldsBytes(KeyFields(key, sendKey))|
    ensures count == |KeyFields(key, sendKey)|
  {
    hide FieldBytes, FieldsBytes, Storable, ParticleBytes, ParticleType;
    ghost var at, done := buf.offset, [];
    count := 0;
    NothingInside();
    if key.namespace != [] {
      buf.Skip(|key.namespace| + 5);
      count := count + 1;
      FieldsGrow(done, Field(NAMESPACE, key.namespace));
      done := done + [Field(NAMESPACE, key.namespace)];
    }
    if key.setName != [] {
      buf.Skip(|key.setName| + 5);
      count := count + 1;
      FieldsGrow(done, Field(TABLE, key.setName));
      done := done + [Field(TABLE, key.setName)];
    }
    buf.Skip(20 + 5);
    count := count + 1;
    FieldsGrow(done, Field(DIGEST_RIPE, key.digest));
    done := done + [Field(DIGEST_RIPE, key.digest)];
    if sendKey && key.userKey.Some? {
      var size := EstimateSize(key.userKey.value);
      buf.Skip(size + 5 + 1);
      count := count + 1;
      FieldsGrow(done, UserKeyFields(key, sendKey)[0]);
      done := done + [UserKeyFields(key, sendKey)[0]];
    }
    assert done == KeyFields(key, sendKey);
  }

  /** estimate_key_size, estimate_filter_size, and the field count of both. */
  method EstimateKeyAndFilter(buf: Buffer, key: Key, sendKey: bool, filter: Option<FilterExpression>)
    returns (count: nat, filterSize: nat)
    requires ValidKey(key) && ValidFilter(filter)
    modifies buf`offset
    ensures buf.offset == old(buf.offset) + |FieldsBytes(RecordFields(key, sendKey, filter))|
    ensures count == |RecordFields(key, sendKey, filter)|
    ensures filter.Some? ==> filterSize == |EncExp(filter.value)|
  {
    hide FieldsBytes, KeyFields, ValidKey, EncExp, Packable;
    count := EstimateKeySize(buf, key, sendKey);
    filterSize := EstimateFilterSize(buf, filter);
    if filterSize > 0 {
      count := count + 1;
    }
    FieldsJoin(KeyFields(key, sendKey), FilterFields(filter));
  }

  method EstimateArgsSize(buf: Buffer, args: Option<seq<Value>>)
    modifies buf`offset
    ensures buf.offset == old(buf.offset) + |FieldBytes(ArgsField(args))|
  {
    hide EncArray, ArrayHeader;
    var size := PackArgs(null, args);
    buf.Skip(size + 5);
  }

  method EstimateUdfSize(buf: Buffer, packageName: bytes, functionName: bytes, args: Option<seq<Value>>)
    returns (count: nat)
    modifies buf`offset
    ensures buf.offset == old(buf.offset) + |FieldsBytes(UdfFields(packageName, functionName, args))|
    ensures count == |UdfFields(packageName, functionName, args)|
  {
    hide FieldBytes, FieldsBytes, ArgsField;
    var p, f := Field(UDF_PACKAGE_NAME, packageName), Field(UDF_FUNCTION, functionName);
    buf.Skip(|packageName| + 5);
    buf.Skip(|functionName| + 5);
    EstimateArgsSize(buf, args);
    NothingInside();
    FieldsGrow([], p);
    FieldsGrow([p], f);
    FieldsGrow([p, f], ArgsField(args));
    assert [] + [p] == [p] && [p] + [f] == [p, f];
    assert [p, f] + [ArgsField(args)] == UdfFields(packageName, functionName, args);
    FieldLength(ArgsField(args));
    return 3;
  }

  // ---------------------------------------------------------------------------------------------
  // Operations

  lemma PayloadLength(op: byte, particle: byte, name: bytes, value: bytes)
    ensures |OpPayload(op, particle, name, value)| == 4 + |name| + |value|
    ensures |OpBytes(OpPayload(op, particle, name, value))| == 8 + |name| + |value|
  {
  }

  /** The length, the codes and the name of an operation. */
  method WriteOpHeader(buf: Buffer, size: nat, op: byte, particle: byte, name: bytes)
    requires Room(buf, 8 + |name|)
    modifies buf
    ensures buf.Holds(old(buf.data), old(buf.offset),
                      BigEndian(4, size) + ([op, particle, 0, |name| % 0x100] + name))
  {
    hide Splice, BigEndian;
    ghost var d, at, len := buf.data, buf.offset, BigEndian(4, size);
    buf.WriteU32(size);
    buf.WriteU8(op);
    PackedJoin(buf, d, at, len, [op]);
    buf.WriteU8(particle);
    PackedJoin(buf, d, at, len + [op], [particle]);
    buf.WriteU8(0);
    PackedJoin(buf, d, at, len + [op] + [particle], [0]);
    buf.WriteU8(|name| % 0x100);
    PackedJoin(buf, d, at, len + [op] + [particle] + [0], [|name| % 0x100]);
    assert len + [op] + [particle] + [0] + [|name| % 0x100] == len + [op, particle, 0, |name| % 0x100];
    buf.WriteBytes(name);
    PackedJoin(buf, d, at, len + [op, particle, 0, |name| % 0x100], name);
    Associates(len, [op, particle, 0, |name| % 0x100], name);
  }

  method WriteOperationForBin(buf: Buffer, bin: Bin, op: byte)
    requires Storable(bin.value) && Room(buf, |OpBytes(BinOp(bin, op))|)
    modifies buf
    ensures buf.Holds(old(buf.data), old(buf.offset), OpBytes(BinOp(bin, op)))
  {
    hide Splice, BigEndian, ParticleBytes, ParticleType;
    ghost var d, at := buf.data, buf.offset;
    var valueLength := EstimateSize(bin.value);
    PayloadLength(op, ParticleType(bin.value), bin.name, ParticleBytes(bin.value));
    WriteOpHeader(buf, |bin.name| + valueLength + 4, op, ParticleType(bin.value), bin.name);
    ghost var codes := [op, ParticleType(bin.value), 0, |bin.name| % 0x100] + bin.name;
    ghost var len := BigEndian(4, |bin.name| + valueLength + 4);
    WriteTo(bin.value, buf);
    PackedJoin(buf, d, at, len + codes, ParticleBytes(bin.value));
    Associates(len, codes, ParticleBytes(bin.value));
  }

  /** write_operation_for_bin_name, and write_operation_for_operation_type for an empty name */
  method WriteOperationForBinName(buf: Buffer, name: bytes, op: byte)
    requires Room(buf, |OpBytes(OpPayload(op, 0, name, []))|)
    modifies buf
    ensures buf.Holds(old(buf.data), old(buf.offset), OpBytes(OpPayload(op, 0, name, [])))
  {
    hide Splice, BigEndian;
    PayloadLength(op, 0, name, []);
    WriteOpHeader(buf, |name| + 4, op, 0, name);
    assert [op, 0, 0, |name| % 0x100] + name == OpPayload(op, 0, name, []);
  }

  method PackExpOperation(buf: Buffer?, exp: FilterExpression, policy: i64) returns (size: nat)
    requires Packable(exp) && Room(buf, |EncExpOperation(exp, policy)|)
    modifies buf
    ensures Packed(buf, old(DataOf(buf)), old(OffsetOf(buf)), size, EncExpOperation(exp, policy))
  {
    hide Splice, EncExp, EncInt, ArrayHeader;
    ghost var d, at := DataOf(buf), OffsetOf(buf);
    size := PackArrayBegin(buf, 2);
    var n := Pack(buf, exp);
    PackedJoin(buf, d, at, ArrayHeader(2), EncExp(exp));
    var m := PackInteger(buf, policy);
    PackedJoin(buf, d, at, ArrayHeader(2) + EncExp(exp), EncInt(policy));
    size := size + n + m;
  }

  method EstimateOperationData(o: Operation) returns (size: nat)
    requires ValidOperation(o)
    ensures size == |DataBytes(o)|
  {
    hide ParticleBytes, EncCdt, EncExpOperation, Storable;
    match o.data
    case NoData => size := 0;
    case ValueData(v) => size := EstimateSize(v);
    case CdtListOp(c) => size := PackCdt(null, c, o.ctx);
    case CdtMapOp(c) => size := PackCdt(null, c, o.ctx);
    case CdtBitOp(c) => size := PackCdt(null, c, o.ctx);
    case HllOp(c) => size := PackCdt(null, c, o.ctx);
    case ExpData(exp, policy) => size := PackExpOperation(null, exp, policy);
  }

  method EstimateOperation(o: Operation) returns (size: nat)
    requires ValidOperation(o)
    ensures size == |OperationName(o)| + |DataBytes(o)|
  {
    hide DataBytes;
    size := match o.bin case NamedBin(name) => |name| case _ => 0;
    var n := EstimateOperationData(o);
    size := size + n;
  }

  method WriteOperationData(buf: Buffer, o: Operation)
    requires ValidOperation(o) && Room(buf, |DataBytes(o)|)
    modifies buf
    ensures buf.Holds(old(buf.data), old(buf.offset), DataBytes(o))
  {
    hide Splice, ParticleBytes, EncCdt, EncExpOperation, Storable;
    match o.data
    case NoData => NothingDone(buf);
    case ValueData(v) => WriteTo(v, buf);
    case CdtListOp(c) => var _ := PackCdt(buf, c, o.ctx);
    case CdtMapOp(c) => var _ := PackCdt(buf, c, o.ctx);
    case CdtBitOp(c) => var _ := PackCdt(buf, c, o.ctx);
    case HllOp(c) => var _ := PackCdt(buf, c, o.ctx);
    case ExpData(exp, policy) => var _ := PackExpOperation(buf, exp, policy);
  }

  method WriteOperation(buf: Buffer, o: Operation)
    requires ValidOperation(o) && Room(buf, |OpBytes(OperationOp(o))|)
    modifies buf
    ensures buf.Holds(old(buf.data), old(buf.offset), OpBytes(OperationOp(o)))
  {
    hide Splice, BigEndian, DataBytes, DataParticle, ValidOperation;
    ghost var d, at := buf.data, buf.offset;
    var name := if o.bin.NamedBin? then o.bin.name else [];
    var opSize := EstimateOperation(o);
    PayloadLength(o.op, DataParticle(o), name, DataBytes(o));
    WriteOpHeader(buf, opSize + 4, o.op, DataParticle(o), name);
    ghost var codes := [o.op, DataParticle(o), 0, |name| % 0x100] + name;
    ghost var len := BigEndian(4, opSize + 4);
    WriteOperationData(buf, o);
    PackedJoin(buf, d, at, len + codes, DataBytes(o));
    Associates(len, codes, DataBytes(o));
  }

  method EstimateBins(buf: Buffer, bins: seq<Bin>, ghost op: byte)
    requires forall i :: 0 <= i < |bins| ==> Storable(bins[i].value)
    modifies buf`offset
    ensures buf.offset == old(buf.offset) + |OpsBytes(BinOps(bins, op))|
  {
    hide ParticleBytes, ParticleType, OpBytes, OpPayload, Storable;
    ghost var at, parts := buf.offset, OpParts(BinOps(bins, op));
    for i := 0 to |bins|
      invariant buf.offset == at + |Concat(parts[..i])|
    {
      ConcatStep(parts, i);
      PayloadLength(op, ParticleType(bins[i].value), bins[i].name, ParticleBytes(bins[i].value));
      buf.Skip(|bins[i].name| + 8);
      var size := EstimateSize(bins[i].value);
      buf.Skip(size);
    }
    assert parts[..|bins|] == parts;
  }

  method WriteBins(buf: Buffer, bins: seq<Bin>, op: byte)
    requires forall i :: 0 <= i < |bins| ==> Storable(bins[i].value)
    requires Room(buf, |OpsBytes(BinOps(bins, op))|)
    modifies buf
    ensures buf.Holds(old(buf.data), old(buf.offset), OpsBytes(BinOps(bins, op)))
  {
    hide Splice, OpBytes, BinOp, Storable;
    ghost var d, at, parts := buf.data, buf.offset, OpParts(BinOps(bins, op));
    NothingDone(buf);
    assert Concat(parts[..0]) == [];
    for i := 0 to |bins|
      invariant buf.Holds(d, at, Concat(parts[..i]))
    {
      ConcatStep(parts, i);
      ConcatSplit(parts, i + 1);
      WriteOperationForBin(buf, bins[i], op);
      PackedJoin(buf, d, at, Concat(parts[..i]), parts[i]);
    }
    assert parts[..|bins|] == parts;
  }

  method EstimateNames(buf: Buffer, names: seq<bytes>)
    modifies buf`offset
    ensures buf.offset == old(buf.offset) + |OpsBytes(NameOps(names))|
  {
    hide OpBytes, OpPayload;
    ghost var at, parts := buf.offset, OpParts(NameOps(names));
    for i := 0 to |names|
      invariant buf.offset == at + |Concat(parts[..i])|
    {
      ConcatStep(parts, i);
      PayloadLength(OP_READ, 0, names[i], []);
      buf.Skip(|names[i]| + 8);
    }
    assert parts[..|names|] == parts;
  }

  method WriteNames(buf: Buffer, names: seq<bytes>)
    requires Room(buf, |OpsBytes(NameOps(names))|)
    modifies buf
    ensures buf.Holds(old(buf.data), old(buf.offset), OpsBytes(NameOps(names)))
  {
    hide Splice, OpBytes, OpPayload;
    ghost var d, at, parts := buf.data, buf.offset, OpParts(NameOps(names));
    NothingDone(buf);
    assert Concat(parts[..0]) == [];
    for i := 0 to |names|
      invariant buf.Holds(d, at, Concat(parts[..i]))
    {
      ConcatStep(parts, i);
      ConcatSplit(parts, i + 1);
      WriteOperationForBinName(buf, names[i], OP_READ);
      PackedJoin(buf, d, at, Concat(parts[..i]), parts[i]);
    }
    assert parts[..|names|] == parts;
  }

  method WriteOperations(buf: Buffer, os: seq<Operation>)
    requires forall i :: 0 <= i < |os| ==> ValidOperation(os[i])
    requires Room(buf, |OpsBytes(OperationOps(os))|)
    modifies buf
    ensures buf.Holds(old(buf.data), old(buf.offset), OpsBytes(OperationOps(os)))
  {
    hide Splice, OpBytes, OperationOp, ValidOperation;
    ghost var d, at, parts := buf.data, buf.offset, OpParts(OperationOps(os));
    NothingDone(buf);
    assert Concat(parts[..0]) == [];
    for i := 0 to |os|
      invariant buf.Holds(d, at, Concat(parts[..i]))
    {
      ConcatStep(parts, i);
      ConcatSplit(parts, i + 1);
      WriteOperation(buf, os[i]);
      PackedJoin(buf, d, at, Concat(parts[..i]), parts[i]);
    }
    assert parts[..|os|] == parts;
  }

  // ---------------------------------------------------------------------------------------------
  // The header and the end

  method WriteHeader(buf: Buffer, consistencyAll: bool, readAttr: byte, writeAttr: byte, fieldCount: nat, opCount: nat)
    requires |buf.data| >= HEADER_SIZE
    modifies buf
    ensures |buf.data| == |old(buf.data)| && buf.offset == HEADER_SIZE
    ensures At(buf.data, 8, HeaderTail(PlainHeader(consistencyAll, readAttr, writeAttr), fieldCount, opCount))
  {
    hide BigEndian, Flag;
    var read := if consistencyAll then Flag(true, INFO1_CONSISTENCY_ALL, readAttr) else readAttr;
    assert read == Flag(consistencyAll, INFO1_CONSISTENCY_ALL, readAttr) by {
      FlagOff(INFO1_CONSISTENCY_ALL, readAttr);
    }
    buf.data := buf.data[8 := 22][9 := read][10 := writeAttr];
    for i := 11 to 26
      invariant |buf.data| == |old(buf.data)|
      invariant buf.data[8] == 22 && buf.data[9] == read && buf.data[10] == writeAttr
      invariant forall j :: 11 <= j < i ==> buf.data[j] == 0
    {
      buf.data := buf.data[i := 0];
    }
    ghost var zeroed := buf.data;
    ghost var flags := [22, read, writeAttr, 0, 0, 0];
    assert zeroed[8..26] == flags + ([0, 0, 0, 0] + [0, 0, 0, 0] + [0, 0, 0, 0]);
    ZeroBytes();
    buf.offset := 26;
    buf.WriteU16(fieldCount % 0x1_0000);
    buf.WriteU16(opCount % 0x1_0000);
    ghost var counts := BigEndian(2, fieldCount % 0x1_0000) + BigEndian(2, opCount % 0x1_0000);
    SpliceTwice(zeroed, 26, BigEndian(2, fieldCount % 0x1_0000), BigEndian(2, opCount % 0x1_0000));
    assert buf.data[8..26] == zeroed[8..26] && buf.data[26..30] == counts;
    assert buf.data[8..30] == buf.data[8..26] + buf.data[26..30];
    buf.offset := HEADER_SIZE;
  }

  lemma FlagOff(bit: byte, attr: byte)
    ensures Flag(false, bit, attr) == attr
  {
  }

  lemma ZeroBytes()
    ensures BigEndian(4, 0) == [0, 0, 0, 0]
  {
    assert BigEndian(2, 0) == [0, 0];
  }

  method WriteHeaderWithPolicy(buf: Buffer, p: WritePolicy, readAttr: byte, writeAttr: byte, fieldCount: nat, opCount: nat)
    requires |buf.data| >= HEADER_SIZE
    modifies buf
    ensures |buf.data| == |old(buf.data)| && buf.offset == HEADER_SIZE
    ensures At(buf.data, 8, HeaderTail(PolicyHeader(p, readAttr, writeAttr), fieldCount, opCount))
  {
    var generation := 0;
    var info, read, write := 0, readAttr, writeAttr;
    match p.recordExists {
      case Update =>
      case UpdateOnly => info := INFO3_UPDATE_ONLY;
      case Replace => info := INFO3_CREATE_OR_REPLACE;
      case ReplaceOnly => info := INFO3_REPLACE_ONLY;
      case CreateOnly => write := BitOr(write, INFO2_CREATE_ONLY);
    }
    match p.generationPolicy {
      case AnyGeneration =>
      case ExpectGenEqual =>
        generation := p.generation;
        write := BitOr(write, INFO2_GENERATION);
      case ExpectGenGreater =>
        generation := p.generation;
        write := BitOr(write, INFO2_GENERATION_GT);
    }
    if p.commitMaster {
      info := BitOr(info, INFO3_COMMIT_MASTER);
    }
    if p.base.consistencyAll {
      read := BitOr(read, INFO1_CONSISTENCY_ALL);
    }
    if p.durableDelete {
      write := BitOr(write, INFO2_DURABLE_DELETE);
    }
    assert PolicyHeader(p, readAttr, writeAttr) == Header(read, write, info, generation, p.expiration) by {
      hide BitOr;
    }
    WriteHeaderFields(buf, Header(read, write, info, generation, p.expiration), fieldCount, opCount);
  }

  method WriteHeaderFields(buf: Buffer, h: Header, fieldCount: nat, opCount: nat)
    requires |buf.data| >= HEADER_SIZE
    modifies buf
    ensures |buf.data| == |old(buf.data)| && buf.offset == HEADER_SIZE
    ensures At(buf.data, 8, HeaderTail(h, fieldCount, opCount))
  {
    hide Splice, BigEndian;
    ghost var d := buf.data;
    ghost var flags := [22, h.readAttr, h.writeAttr, h.infoAttr, 0, 0];
    buf.offset := 8;
    buf.WriteBytes([22, h.readAttr, h.writeAttr, h.infoAttr, 0, 0]);
    buf.WriteU32(h.generation);
    PackedJoin(buf, d, 8, flags, BigEndian(4, h.generation));
    buf.WriteU32(h.expiration);
    PackedJoin(buf, d, 8, flags + BigEndian(4, h.generation), BigEndian(4, h.expiration));
    buf.WriteBytes([0, 0, 0, 0]);
    ghost var done := flags + BigEndian(4, h.generation) + BigEndian(4, h.expiration);
    PackedJoin(buf, d, 8, done, [0, 0, 0, 0]);
    done := done + [0, 0, 0, 0];
    buf.WriteU16(fieldCount % 0x1_0000);
    PackedJoin(buf, d, 8, done, BigEndian(2, fieldCount % 0x1_0000));
    done := done + BigEndian(2, fieldCount % 0x1_0000);
    buf.WriteU16(opCount % 0x1_0000);
    PackedJoin(buf, d, 8, done, BigEndian(2, opCount % 0x1_0000));
    done := done + BigEndian(2, opCount % 0x1_0000);
    assert done == HeaderTail(h, fieldCount, opCount);
    SpliceAt(d, 8, done);
    buf.offset := HEADER_SIZE;
  }

  lemma SpliceAt(d: bytes, at: nat, b: bytes)
    requires at + |b| <= |d|
    ensures At(Splice(d, at, b), at, b)
    ensures Splice(d, at, b)[..at] == d[..at]
  {
    assert Splice(d, at, b)[at..at + |b|] == b;
  }

  /** The size and the versions are one number, written last and at the front. */
  method End(buf: Buffer)
    requires 8 <= buf.offset <= MAX_BUFFER_SIZE && |buf.data| >= 8
    modifies buf
    ensures buf.Holds(old(buf.data), 0, Prelude(old(buf.offset)))
  {
    hide Splice, BigEndian;
    var size := (buf.offset - 8) + 2 * 0x100_0000_0000_0000 + 3 * 0x1_0000_0000_0000;
    buf.offset := 0;
    buf.WriteU64(size);
  }

  /** The prelude over a header and a body, which may leave room behind them. */
  lemma Finished(d: bytes, tail: bytes, body: bytes)
    requires |tail| == 22 && At(d, 8, tail) && |d| >= HEADER_SIZE + |body|
    ensures var size := HEADER_SIZE + |body|;
      Splice(Splice(d, HEADER_SIZE, body), 0, Prelude(size))[..size] == Prelude(size) + tail + body
  {
    hide Prelude;
    var size, whole := HEADER_SIZE + |body|, Splice(d, HEADER_SIZE, body);
    assert d[8..HEADER_SIZE] == tail;
    assert whole[..size] == d[..HEADER_SIZE] + body;
    assert whole[8..size] == tail + body by {
      assert whole[8..size] == whole[..size][8..];
    }
    Associates(Prelude(size), tail, body);
  }

  /** end(), once all of `c` behind its header is in a buffer that was sized for it. */
  method Finish(buf: Buffer, ghost d: bytes, ghost c: Command)
    requires |d| == CommandSize(c) <= MAX_BUFFER_SIZE
    requires At(d, 8, HeaderTail(c.header, |c.fields|, |c.ops|))
    requires buf.Holds(d, HEADER_SIZE, Body(c))
    modifies buf
    ensures buf.data == CommandBytes(c) && buf.offset == 8
  {
    hide Splice, Body, HeaderTail, Prelude, At;
    End(buf);
    Finished(d, HeaderTail(c.header, |c.fields|, |c.ops|), Body(c));
    assert buf.data[..CommandSize(c)] == buf.data;
  }

  /** write_timeout: the milliseconds of a policy with a timeout go into the finished message. */
  method WriteTimeout(buf: Buffer, millis: Option<u32>)
    requires |buf.data| >= HEADER_SIZE
    modifies buf`data
    ensures buf.data == if millis.Some? then WithTimeout(old(buf.data), millis.value) else old(buf.data)
    ensures ReadCommand(buf.data) == ReadCommand(old(buf.data))
    ensures millis.Some? ==> FromBigEndian(buf.data[22..26]) == millis.value
    ensures |buf.data| == old(|buf.data|)
    ensures buf.data[..22] == old(buf.data)[..22] && buf.data[26..] == old(buf.data)[26..]
  {
    hide BigEndian, FromBigEndian, ReadCommand;
    if millis.Some? {
      TimeoutKeepsCommand(buf.data, millis.value);
      ReadBackWidths(millis.value);
      buf.data := Splice(buf.data, 22, BigEndian(4, millis.value));
    }
  }
}
