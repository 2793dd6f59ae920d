/**
 The commands of the client, as messages: what each builder of src/commands/buffer.rs puts on the wire
 for its arguments.
 */
module Commands {
  import opened Options
  import opened Bytes
  import opened Values
  import opened Encoding
  import opened Particles
  import opened Cdt
  import opened Expressions
  import opened Messages

  // Attribute bits of the header.
  const INFO1_READ: byte := 1
  const INFO1_GET_ALL: byte := 2
  const INFO1_BATCH: byte := 8
  const INFO1_NOBINDATA: byte := 32
  const INFO1_CONSISTENCY_ALL: byte := 64
  const INFO2_WRITE: byte := 1
  const INFO2_DELETE: byte := 2
  const INFO2_GENERATION: byte := 4
  const INFO2_GENERATION_GT: byte := 8
  const INFO2_DURABLE_DELETE: byte := 16
  const INFO2_CREATE_ONLY: byte := 32
  const INFO2_RESPOND_ALL_OPS: byte := 128
  const INFO3_COMMIT_MASTER: byte := 2
  const INFO3_UPDATE_ONLY: byte := 8
  const INFO3_CREATE_OR_REPLACE: byte := 16
  const INFO3_REPLACE_ONLY: byte := 32

  // Field types (src/commands/field_type.rs).
  const NAMESPACE: byte := 0
  const TABLE: byte := 1
  const KEY: byte := 2
  const DIGEST_RIPE: byte := 4
  const TRAN_ID: byte := 7
  const SCAN_TIMEOUT: byte := 9
  const PID_ARRAY: byte := 11
  const INDEX_NAME: byte := 21
  const INDEX_RANGE: byte := 22
  const INDEX_TYPE: byte := 26
  const UDF_PACKAGE_NAME: byte := 30
  const UDF_FUNCTION: byte := 31
  const UDF_ARG_LIST: byte := 32
  const UDF_OP: byte := 33
  const QUERY_BIN_LIST: byte := 40
  const BATCH_INDEX: byte := 41
  const BATCH_INDEX_WITH_SET: byte := 42
  const FILTER_EXP: byte := 43

  // Operation types (src/operations/mod.rs).
  const OP_READ: byte := 1
  const OP_CDT_READ: byte := 3
  const OP_EXP_READ: byte := 7
  const OP_TOUCH: byte := 11
  const OP_BIT_READ: byte := 12
  const OP_HLL_READ: byte := 15

  // ---------------------------------------------------------------------------------------------
  // Arguments

  datatype Key = Key(namespace: bytes, setName: bytes, userKey: Option<Value>, digest: bytes)

  predicate ValidKey(key: Key)
  {
    |key.digest| == 20 && (key.userKey.Some? ==> Storable(key.userKey.value))
  }

  datatype Bin = Bin(name: bytes, value: Value)

  datatype Bins = AllBins | NoBins | SomeBins(names: seq<bytes>)

  datatype RecordExistsAction = Update | UpdateOnly | Replace | ReplaceOnly | CreateOnly

  datatype GenerationPolicy = AnyGeneration | ExpectGenEqual | ExpectGenGreater

  datatype BasePolicy = BasePolicy(consistencyAll: bool, filter: Option<FilterExpression>)

  datatype WritePolicy = WritePolicy(
    base: BasePolicy,
    recordExists: RecordExistsAction,
    generationPolicy: GenerationPolicy,
    generation: u32,
    expiration: u32,
    commitMaster: bool,
    durableDelete: bool,
    sendKey: bool,
    respondPerEachOp: bool,
    filter: Option<FilterExpression>)

  predicate ValidFilter(filter: Option<FilterExpression>)
  {
    filter.Some? ==> Packable(filter.value)
  }

  datatype OperationBin = NoBin | EveryBin | NamedBin(name: bytes)

  datatype OperationData =
    | NoData
    | ValueData(v: Value)
    | CdtListOp(list: CdtOperation)
    | CdtMapOp(m: CdtOperation)
    | CdtBitOp(bit: CdtOperation)
    | HllOp(hll: CdtOperation)
    | ExpData(exp: FilterExpression, policy: i64)

  datatype Operation = Operation(op: byte, ctx: seq<CdtContext>, bin: OperationBin, data: OperationData)

  predicate ValidOperation(o: Operation)
  {
    match o.data
    case ValueData(v) => Storable(v)
    case ExpData(exp, _) => Packable(exp)
    case _ => true
  }

  // ---------------------------------------------------------------------------------------------
  // Headers

  function Flag(on: bool, bit: byte, attr: byte): byte
  {
    if on then BitOr(attr, bit) else attr
  }

  /** write_header */
  function PlainHeader(consistencyAll: bool, readAttr: byte, writeAttr: byte): Header
  {
    Header(Flag(consistencyAll, INFO1_CONSISTENCY_ALL, readAttr), writeAttr, 0, 0, 0)
  }

  /** write_header_with_policy */
  function PolicyHeader(p: WritePolicy, readAttr: byte, writeAttr: byte): Header
  {
    var info :=
      match p.recordExists
      case Update => 0
      case UpdateOnly => INFO3_UPDATE_ONLY
      case Replace => INFO3_CREATE_OR_REPLACE
      case ReplaceOnly => INFO3_REPLACE_ONLY
      case CreateOnly => 0;
    var write :=
      Flag(p.durableDelete, INFO2_DURABLE_DELETE,
        Flag(p.generationPolicy.ExpectGenGreater?, INFO2_GENERATION_GT,
          Flag(p.generationPolicy.ExpectGenEqual?, INFO2_GENERATION,
            Flag(p.recordExists.CreateOnly?, INFO2_CREATE_ONLY, writeAttr))));
    Header(Flag(p.base.consistencyAll, INFO1_CONSISTENCY_ALL, readAttr),
           write,
           Flag(p.commitMaster, INFO3_COMMIT_MASTER, info),
           if p.generationPolicy.AnyGeneration? then 0 else p.generation,
           p.expiration)
  }

  // ---------------------------------------------------------------------------------------------
  // Fields and operations

  function NonEmptyField(code: byte, body: bytes): seq<Field>
  {
    if body == [] then [] else [Field(code, body)]
  }

  function KeyFields(key: Key, sendKey: bool): seq<Field>
    requires ValidKey(key)
  {
    NonEmptyField(NAMESPACE, key.namespace) + NonEmptyField(TABLE, key.setName) + [Field(DIGEST_RIPE, key.digest)]
    + UserKeyFields(key, sendKey)
  }

  function UserKeyFields(key: Key, sendKey: bool): seq<Field>
    requires ValidKey(key)
  {
    if sendKey && key.userKey.Some?
    then [Field(KEY, [ParticleType(key.userKey.value)] + ParticleBytes(key.userKey.value))]
    else []
  }

  function FilterFields(filter: Option<FilterExpression>): seq<Field>
    requires ValidFilter(filter)
  {
    if filter.Some? then [Field(FILTER_EXP, EncExp(filter.value))] else []
  }

  function RecordFields(key: Key, sendKey: bool, filter: Option<FilterExpression>): seq<Field>
    requires ValidKey(key) && ValidFilter(filter)
  {
    KeyFields(key, sendKey) + FilterFields(filter)
  }

  /** An operation behind its length: codes, the name with its length in a byte, and the value. */
  function OpPayload(op: byte, particle: byte, name: bytes, value: bytes): bytes
  {
    [op, particle, 0, |name| % 0x100] + name + value
  }

  function BinOp(bin: Bin, op: byte): bytes
    requires Storable(bin.value)
  {
    OpPayload(op, ParticleType(bin.value), bin.name, ParticleBytes(bin.value))
  }

  function BinOps(bins: seq<Bin>, op: byte): (ops: seq<bytes>)
    requires forall i :: 0 <= i < |bins| ==> Storable(bins[i].value)
    ensures |ops| == |bins|
  {
    seq(|bins|, i requires 0 <= i < |bins| => BinOp(bins[i], op))
  }

  function NameOp(name: bytes): bytes
  {
    OpPayload(OP_READ, 0, name, [])
  }

  function NameOps(names: seq<bytes>): (ops: seq<bytes>)
    ensures |ops| == |names|
  {
    seq(|names|, i requires 0 <= i < |names| => NameOp(names[i]))
  }

  function EncExpOperation(exp: FilterExpression, policy: i64): bytes
    requires Packable(exp)
  {
    ArrayHeader(2) + EncExp(exp) + EncInt(policy)
  }

  function DataBytes(o: Operation): bytes
    requires ValidOperation(o)
  {
    match o.data
    case NoData => []
    case ValueData(v) => ParticleBytes(v)
    case CdtListOp(c) => EncCdt(c, o.ctx)
    case CdtMapOp(c) => EncCdt(c, o.ctx)
    case CdtBitOp(c) => EncCdt(c, o.ctx)
    case HllOp(c) => EncCdt(c, o.ctx)
    case ExpData(exp, policy) => EncExpOperation(exp, policy)
  }

  function DataParticle(o: Operation): byte
    requires ValidOperation(o)
  {
    match o.data
    case NoData => PARTICLE_NULL
    case ValueData(v) => ParticleType(v)
    case _ => PARTICLE_BLOB
  }

  function OperationName(o: Operation): bytes
  {
    if o.bin.NamedBin? then o.bin.name else []
  }

  function OperationOp(o: Operation): bytes
    requires ValidOperation(o)
  {
    OpPayload(o.op, DataParticle(o), OperationName(o), DataBytes(o))
  }

  function OperationOps(os: seq<Operation>): (ops: seq<bytes>)
    requires forall i :: 0 <= i < |os| ==> ValidOperation(os[i])
    ensures |ops| == |os|
  {
    seq(|os|, i requires 0 <= i < |os| => OperationOp(os[i]))
  }

  /** The read and write attributes after one more operation. */
  function OperateStep(p: WritePolicy, o: Operation, attrs: (byte, byte)): (byte, byte)
  {
    var read, write := attrs.0, attrs.1;
    var respond := p.respondPerEachOp || o.data.CdtMapOp? || o.data.CdtBitOp? || o.data.HllOp? || o.data.ExpData?;
    if o.op == OP_READ && o.bin.NoBin? then
      (BitOr(read, BitOr(INFO1_READ, INFO1_NOBINDATA)), Flag(respond, INFO2_RESPOND_ALL_OPS, write))
    else if o.op == OP_READ && o.bin.EveryBin? then
      (BitOr(read, BitOr(INFO1_READ, INFO1_GET_ALL)), Flag(respond, INFO2_RESPOND_ALL_OPS, write))
    else if o.op in {OP_READ, OP_CDT_READ, OP_BIT_READ, OP_HLL_READ, OP_EXP_READ} then
      (BitOr(read, INFO1_READ), Flag(respond, INFO2_RESPOND_ALL_OPS, write))
    else (read, Flag(respond, INFO2_RESPOND_ALL_OPS, BitOr(write, INFO2_WRITE)))
  }

  function OperateAttrs(p: WritePolicy, os: seq<Operation>): (byte, byte)
  {
    if os == [] then (0, 0) else OperateStep(p, os[|os| - 1], OperateAttrs(p, os[..|os| - 1]))
  }

  function UdfFields(packageName: bytes, functionName: bytes, args: Option<seq<Value>>): seq<Field>
  {
    [Field(UDF_PACKAGE_NAME, packageName), Field(UDF_FUNCTION, functionName), ArgsField(args)]
  }

  function ArgsField(args: Option<seq<Value>>): Field
  {
    Field(UDF_ARG_LIST, if args.Some? then EncArray(args.value) else ArrayHeader(0))
  }

  function PidParts(partitions: seq<u16>): (parts: seq<bytes>)
    ensures |parts| == |partitions|
  {
    seq(|partitions|, i requires 0 <= i < |partitions| => LittleEndian16(partitions[i]))
  }

  function PidField(partitions: seq<u16>): Field
  {
    Field(PID_ARRAY, Concat(PidParts(partitions)))
  }

  // ---------------------------------------------------------------------------------------------
  // Commands on one record

  function WriteCommand(p: WritePolicy, op: byte, key: Key, bins: seq<Bin>): Command
    requires ValidKey(key) && ValidFilter(p.filter)
    requires forall i :: 0 <= i < |bins| ==> Storable(bins[i].value)
  {
    Command(PolicyHeader(p, 0, INFO2_WRITE), RecordFields(key, p.sendKey, p.filter), BinOps(bins, op))
  }

  function DeleteCommand(p: WritePolicy, key: Key): Command
    requires ValidKey(key) && ValidFilter(p.filter)
  {
    Command(PolicyHeader(p, 0, BitOr(INFO2_WRITE, INFO2_DELETE)), RecordFields(key, false, p.filter), [])
  }

  function TouchCommand(p: WritePolicy, key: Key): Command
    requires ValidKey(key) && ValidFilter(p.filter)
  {
    Command(PolicyHeader(p, 0, INFO2_WRITE), RecordFields(key, p.sendKey, p.filter), [OpPayload(OP_TOUCH, 0, [], [])])
  }

  function ExistsCommand(p: WritePolicy, key: Key): Command
    requires ValidKey(key) && ValidFilter(p.filter)
  {
    Command(PlainHeader(p.base.consistencyAll, BitOr(INFO1_READ, INFO1_NOBINDATA), 0),
            RecordFields(key, false, p.filter), [])
  }

  function ReadCommandOf(p: BasePolicy, key: Key, bins: Bins): Command
    requires ValidKey(key) && ValidFilter(p.filter)
  {
    match bins
    case NoBins => ReadHeaderCommand(p, key)
    case AllBins => ReadAllCommand(p, key)
    case SomeBins(names) =>
      Command(PlainHeader(p.consistencyAll, INFO1_READ, 0), RecordFields(key, false, p.filter), NameOps(names))
  }

  function ReadHeaderCommand(p: BasePolicy, key: Key): Command
    requires ValidKey(key) && ValidFilter(p.filter)
  {
    Command(PlainHeader(p.consistencyAll, BitOr(INFO1_READ, INFO1_NOBINDATA), 0),
            RecordFields(key, false, p.filter), [NameOp([])])
  }

  function ReadAllCommand(p: BasePolicy, key: Key): Command
    requires ValidKey(key) && ValidFilter(p.filter)
  {
    Command(PlainHeader(p.consistencyAll, BitOr(INFO1_READ, INFO1_GET_ALL), 0), RecordFields(key, false, p.filter), [])
  }

  function OperateCommand(p: WritePolicy, key: Key, os: seq<Operation>): Command
    requires ValidKey(key) && ValidFilter(p.filter)
    requires forall i :: 0 <= i < |os| ==> ValidOperation(os[i])
  {
    var (read, write) := OperateAttrs(p, os);
    Command(if write == 0 then PlainHeader(p.base.consistencyAll, read, 0) else PolicyHeader(p, read, write),
            RecordFields(key, p.sendKey && write != 0, p.filter),
            OperationOps(os))
  }

  function UdfCommand(p: WritePolicy, key: Key, packageName: bytes, functionName: bytes, args: Option<seq<Value>>): Command
    requires ValidKey(key) && ValidFilter(p.filter)
  {
    Command(PlainHeader(p.base.consistencyAll, 0, INFO2_WRITE),
            RecordFields(key, p.sendKey, p.filter) + UdfFields(packageName, functionName, args), [])
  }

  // ---------------------------------------------------------------------------------------------
  // Scans and queries

  datatype ScanPolicy = ScanPolicy(consistencyAll: bool, socketTimeout: u32, filter: Option<FilterExpression>)

  function ScanFields(p: ScanPolicy, namespace: bytes, setName: bytes, taskId: u64, partitions: seq<u16>): seq<Field>
    requires ValidFilter(p.filter)
  {
    NonEmptyField(NAMESPACE, namespace) + NonEmptyField(TABLE, setName) + [PidField(partitions)]
    + FilterFields(p.filter)
    + [Field(SCAN_TIMEOUT, BigEndian(4, p.socketTimeout)), Field(TRAN_ID, BigEndian(8, taskId))]
  }

  function ScanCommand(p: ScanPolicy, namespace: bytes, setName: bytes, bins: Bins, taskId: u64, partitions: seq<u16>): Command
    requires ValidFilter(p.filter)
  {
    Command(PlainHeader(p.consistencyAll, Flag(bins.NoBins?, INFO1_NOBINDATA, INFO1_READ), 0),
            ScanFields(p, namespace, setName, taskId, partitions),
            if bins.SomeBins? then NameOps(bins.names) else [])
  }

  /** A filter on a secondary index (src/query/filter.rs). */
  datatype Filter = Filter(binName: bytes, indexType: byte, particle: byte, begin: Value, end: Value)

  predicate ValidIndexFilter(f: Filter)
  {
    Storable(f.begin) && Storable(f.end)
  }

  function SizedParticle(v: Value): bytes
    requires Storable(v)
  {
    BigEndian(4, |ParticleBytes(v)|) + ParticleBytes(v)
  }

  function IndexFilterBytes(f: Filter): bytes
    requires ValidIndexFilter(f)
  {
    [|f.binName| % 0x100] + f.binName + [f.particle] + SizedParticle(f.begin) + SizedParticle(f.end)
  }

  datatype Aggregation = Aggregation(packageName: bytes, functionName: bytes, args: Option<seq<Value>>)

  /** `filters` holds the first filter, the only one that is used. */
  datatype Statement = Statement(
    namespace: bytes,
    setName: bytes,
    indexName: Option<bytes>,
    bins: Bins,
    filters: Option<Filter>,
    aggregation: Option<Aggregation>)

  predicate ValidStatement(st: Statement)
  {
    st.filters.Some? ==> ValidIndexFilter(st.filters.value)
  }

  function NameParts(names: seq<bytes>): (parts: seq<bytes>)
    ensures |parts| == |names|
  {
    seq(|names|, i requires 0 <= i < |names| => [|names[i]| % 0x100] + names[i])
  }

  function BinListField(names: seq<bytes>): Field
  {
    Field(QUERY_BIN_LIST, [|names| % 0x100] + Concat(NameParts(names)))
  }

  /** The fields in the middle: what a filter brings along, or the partitions of a scan. */
  function IndexFields(st: Statement, partitions: seq<u16>): seq<Field>
    requires ValidStatement(st)
  {
    if st.filters.None? then [PidField(partitions)]
    else
      var f := st.filters.value;
      (if f.indexType != 0 then [Field(INDEX_TYPE, [f.indexType])] else [])
      + [Field(INDEX_RANGE, [1] + IndexFilterBytes(f))]
      + (if st.bins.SomeBins? && st.bins.names != [] then [BinListField(st.bins.names)] else [])
  }

  function AggregationFields(st: Statement): seq<Field>
  {
    if st.aggregation.None? then []
    else
      var a := st.aggregation.value;
      [Field(UDF_OP, [if st.bins.NoBins? then 2 else 1])] + UdfFields(a.packageName, a.functionName, a.args)
  }

  function QueryFields(st: Statement, filter: Option<FilterExpression>, taskId: u64, partitions: seq<u16>): seq<Field>
    requires ValidStatement(st) && ValidFilter(filter)
  {
    NonEmptyField(NAMESPACE, st.namespace)
    + NonEmptyField(INDEX_NAME, if st.indexName.Some? then st.indexName.value else [])
    + NonEmptyField(TABLE, st.setName)
    + [Field(TRAN_ID, BigEndian(8, taskId))]
    + IndexFields(st, partitions)
    + FilterFields(filter)
    + AggregationFields(st)
  }

  function QueryOps(st: Statement): seq<bytes>
  {
    if st.filters.None? && st.bins.SomeBins? then NameOps(st.bins.names) else []
  }

  function QueryCommand(p: BasePolicy, st: Statement, write: bool, taskId: u64, partitions: seq<u16>): Command
    requires ValidStatement(st) && ValidFilter(p.filter)
  {
    Command(PlainHeader(p.consistencyAll, Flag(st.bins.NoBins?, INFO1_NOBINDATA, INFO1_READ),
                        if write then INFO2_WRITE else 0),
            QueryFields(st, p.filter, taskId, partitions),
            QueryOps(st))
  }

  /** The size pass counts an empty list of bins as a field, the write pass leaves it out. */
  predicate CountsAbsentField(st: Statement)
  {
    st.filters.Some? && st.bins == SomeBins([])
  }
}
