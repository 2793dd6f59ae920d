/**
 What a message tells, found in its bytes by the numbers of the protocol: fields by their codes, operations by
 their positions, attributes by the places of the header.  The builders promise what is told in these terms.
 */
module Told {
  import opened Options
  import opened Bytes
  import opened Values
  import opened RoundTrip
  import opened Encoding
  import opened Particles
  import opened Cdt
  import opened Expressions
  import opened Messages
  import opened Commands
  import opened Headers

  /** The body of the first field with a code. */
  function Find(fields: seq<Field>, code: int): Option<bytes>
  {
    if fields == [] then None
    else if fields[0].code == code then Some(fields[0].body)
    else Find(fields[1..], code)
  }

  /** Version 2, type 3, a length of 48 bits that counts what is behind it, a header of 22 bytes, and no timeout yet. */
  predicate Framed(d: bytes)
  {
    && |d| >= 30
    && d[0] == 2 && d[1] == 3 && FromBigEndian(d[2..8]) == |d| - 8
    && d[8] == 22 && d[12] == 0 && d[13] == 0 && d[22..26] == [0, 0, 0, 0]
  }

  /** The attributes in the header, and the generation and the expiration behind them. */
  predicate Attributes(d: bytes, read: int, write: int, info: int, generation: int, expiration: int)
    requires |d| >= 30
  {
    && d[9] == read && d[10] == write && d[11] == info
    && FromBigEndian(d[14..18]) == generation && FromBigEndian(d[18..22]) == expiration
  }

  /** The fields that the header announces, and where they end. */
  function FieldsOf(d: bytes): Option<(seq<Field>, nat)>
    requires |d| >= 30
  {
    ReadFields(d, 30, FromBigEndian(d[26..28]))
  }

  /**
   The fields name the record: its namespace under 0 and its set under 1, if they are not empty, its digest under 4, its
   user key with its type under 2 if it is to be sent, and a filter under 43 if there is one.
   */
  predicate NamesRecord(fields: seq<Field>, key: Key, sendKey: bool, filter: Option<FilterExpression>)
    requires ValidKey(key) && ValidFilter(filter)
  {
    && Find(fields, 0) == (if key.namespace == [] then None else Some(key.namespace))
    && Find(fields, 1) == (if key.setName == [] then None else Some(key.setName))
    && Find(fields, 4) == Some(key.digest)
    && Find(fields, 2) == (if sendKey && key.userKey.Some?
                           then Some([ParticleType(key.userKey.value)] + ParticleBytes(key.userKey.value)) else None)
    && Find(fields, 43) == (if filter.Some? then Some(EncExp(filter.value)) else None)
  }

  /** A message for a record, with no other fields. */
  predicate TellsKey(d: bytes, key: Key, sendKey: bool, filter: Option<FilterExpression>)
    requires ValidKey(key) && ValidFilter(filter)
  {
    && Framed(d) && FieldsOf(d).Some?
    && var fields := FieldsOf(d).value.0;
       NamesRecord(fields, key, sendKey, filter) && forall i :: 0 <= i < |fields| ==> fields[i].code in {0, 1, 2, 4, 43}
  }

  /** Behind the fields there are these operations and nothing else. */
  predicate TellsOps(d: bytes, ops: seq<bytes>)
  {
    && |d| >= 30 && FieldsOf(d).Some?
    && FromBigEndian(d[28..30]) == |ops| % 0x1_0000
    && ReadOps(d, FieldsOf(d).value.1, |ops|) == Some((ops, |d|))
  }

  /** The attributes of a command that is sent with a write policy: each choice adds a bit of its own. */
  predicate PolicyTold(d: bytes, p: WritePolicy, read: int, write: int)
    requires |d| >= 30
  {
    Attributes(d,
               read + (if p.base.consistencyAll then 64 else 0),
               write + (if p.recordExists.CreateOnly? then 32 else 0)
                     + (if p.generationPolicy.ExpectGenEqual? then 4 else 0)
                     + (if p.generationPolicy.ExpectGenGreater? then 8 else 0)
                     + (if p.durableDelete then 16 else 0),
               (if p.commitMaster then 2 else 0)
                     + (match p.recordExists case UpdateOnly => 8 case Replace => 16 case ReplaceOnly => 32 case _ => 0),
               if p.generationPolicy.AnyGeneration? then 0 else p.generation,
               p.expiration)
  }

  /** The attributes of a command that is sent without one. */
  predicate TellsAttributes(d: bytes, consistencyAll: bool, read: int, write: int)
    requires |d| >= 30
  {
    Attributes(d, read + (if consistencyAll then 64 else 0), write, 0, 0, 0)
  }

  /** Operations with a code, a zero for the type, a zero, a length, and a name. */
  function Unvalued(op: int, names: seq<bytes>): (ops: seq<bytes>)
    requires 0 <= op < 0x100
    ensures |ops| == |names|
  {
    seq(|names|, i requires 0 <= i < |names| => [op, 0, 0, |names[i]| % 0x100] + names[i])
  }

  /** The same with a type and a value. */
  function Valued(op: int, bins: seq<Bin>): (ops: seq<bytes>)
    requires 0 <= op < 0x100 && forall i :: 0 <= i < |bins| ==> Storable(bins[i].value)
    ensures |ops| == |bins|
  {
    seq(|bins|, i requires 0 <= i < |bins| =>
      [op, ParticleType(bins[i].value), 0, |bins[i].name| % 0x100] + bins[i].name + ParticleBytes(bins[i].value))
  }

  /** What an operation of any kind looks like. */
  function OperationTold(o: Operation): bytes
    requires ValidOperation(o)
  {
    var name := if o.bin.NamedBin? then o.bin.name else [];
    var front := [o.op, match o.data case NoData => 0 case ValueData(v) => ParticleType(v) case _ => 4, 0, |name| % 0x100];
    var data :=
      match o.data
      case NoData => []
      case ValueData(v) => ParticleBytes(v)
      case CdtListOp(c) => EncCdt(c, o.ctx)
      case CdtMapOp(c) => EncCdt(c, o.ctx)
      case CdtBitOp(c) => EncCdt(c, o.ctx)
      case HllOp(c) => EncCdt(c, o.ctx)
      case ExpData(exp, policy) => [0x92] + EncExp(exp) + EncInt(policy);
    front + name + data
  }

  function OperationsTold(os: seq<Operation>): (ops: seq<bytes>)
    requires forall i :: 0 <= i < |os| ==> ValidOperation(os[i])
    ensures |ops| == |os|
  {
    seq(|os|, i requires 0 <= i < |os| => OperationTold(os[i]))
  }

  /** A call: package, function and packed arguments under 30, 31 and 32. */
  predicate TellsCall(fields: seq<Field>, packageName: bytes, functionName: bytes, args: Option<seq<Value>>)
  {
    && Find(fields, 30) == Some(packageName)
    && Find(fields, 31) == Some(functionName)
    && Find(fields, 32) == Some(if args.Some? then EncArray(args.value) else [0x90])
  }

  /** A message for a call on a record. */
  predicate TellsUdf(d: bytes, key: Key, sendKey: bool, filter: Option<FilterExpression>, packageName: bytes,
                     functionName: bytes, args: Option<seq<Value>>)
    requires ValidKey(key) && ValidFilter(filter)
  {
    && Framed(d) && FieldsOf(d).Some?
    && var fields := FieldsOf(d).value.0;
       && NamesRecord(fields, key, sendKey, filter)
       && TellsCall(fields, packageName, functionName, args)
       && forall i :: 0 <= i < |fields| ==> fields[i].code in {0, 1, 2, 4, 43, 30, 31, 32}
  }

  // ---------------------------------------------------------------------------------------------
  // What the message of a command tells

  /** The parts of a message, as any reader finds them. */
  predicate Tells(d: bytes, c: Command)
  {
    && Framed(d)
    && Attributes(d, c.header.readAttr, c.header.writeAttr, c.header.infoAttr, c.header.generation, c.header.expiration)
    && FieldsOf(d).Some? && FieldsOf(d).value.0 == c.fields
    && TellsOps(d, c.ops)
  }

  /** The message of a command, with any number of fields in its header. */
  lemma MessageTells(c: Command, count: nat)
    requires count < 0x1_0000 && CommandSize(c) < 0x1_0000_0000
    ensures var d := Prelude(CommandSize(c)) + HeaderTail(c.header, count, |c.ops|) + Body(c);
      && Framed(d) && |d| == CommandSize(c)
      && Attributes(d, c.header.readAttr, c.header.writeAttr, c.header.infoAttr, c.header.generation, c.header.expiration)
      && FromBigEndian(d[26..28]) == count && FromBigEndian(d[28..30]) == |c.ops| % 0x1_0000
      && exists end: nat :: ReadFields(d, 30, |c.fields|) == Some((c.fields, end))
                            && ReadOps(d, end, |c.ops|) == Some((c.ops, |d|))
  {
    hide FieldsBytes, OpsBytes, HeaderTail, Prelude, FromBigEndian, ReadFields, ReadOps, Framed, Attributes;
    var d := Prelude(CommandSize(c)) + HeaderTail(c.header, count, |c.ops|) + Body(c);
    HeaderTells(c.header, count, |c.ops|, Body(c));
    assert d[30..] == Body(c);
    AtSplit(d, 30, FieldsBytes(c.fields), OpsBytes(c.ops));
    FieldsRead(c.fields, d, 30);
    OpsRead(c.ops, d, 30 + |FieldsBytes(c.fields)|);
  }

  /** The header in front of any body. */
  lemma HeaderTells(h: Header, fieldCount: nat, opCount: nat, body: bytes)
    requires fieldCount < 0x1_0000 && 30 + |body| < 0x1_0000_0000
    ensures var d := Prelude(30 + |body|) + HeaderTail(h, fieldCount, opCount) + body;
      && Framed(d) && |d| == 30 + |body|
      && Attributes(d, h.readAttr, h.writeAttr, h.infoAttr, h.generation, h.expiration)
      && FromBigEndian(d[26..28]) == fieldCount && FromBigEndian(d[28..30]) == opCount % 0x1_0000
  {
    hide HeaderTail, Prelude, FromBigEndian, BigEndian;
    var front, tail := Prelude(30 + |body|), HeaderTail(h, fieldCount, opCount);
    var d := front + tail + body;
    assert d[8..30] == tail && d[..8] == front;
    HeaderRead(d, h, fieldCount, opCount);
    PreludeBytes(d, 30 + |body|);
    HeaderBytes(d, h, fieldCount, opCount);
  }

  lemma CommandTells(c: Command)
    requires |c.fields| < 0x1_0000 && CommandSize(c) < 0x1_0000_0000
    ensures Tells(CommandBytes(c), c)
  {
    hide Body, HeaderTail, Prelude, FromBigEndian, ReadFields, ReadOps, Framed, CommandSize, Attributes;
    MessageTells(c, |c.fields|);
  }

  lemma PreludeBytes(d: bytes, size: nat)
    requires 8 <= size == |d| < 0x1_0000_0000 && d[..8] == Prelude(size)
    ensures d[0] == 2 && d[1] == 3 && FromBigEndian(d[2..8]) == size - 8
  {
    hide BigEndian, FromBigEndian;
    WidthBounds();
    var rest := [2, 3] + BigEndian(6, size - 8);
    BigEndianRoundTrip(6, size - 8);
    FrontAndRest(2, 3, size - 8);
    assert d[..8] == rest;
    assert d[0] == d[..8][0] && d[1] == d[..8][1] && d[2..8] == d[..8][2..];
  }

  lemma FrontAndRest(a: byte, b: byte, v: nat)
    requires v < 0x1_0000_0000_0000
    ensures BigEndian(8, 0x100_0000_0000_0000 * a + 0x1_0000_0000_0000 * b + v) == [a, b] + BigEndian(6, v)
  {
    hide BigEndian, FromBigEndian;
    var s := [a, b] + BigEndian(6, v);
    WidthBounds();
    BigEndianRoundTrip(6, v);
    ValueOf(a, b, BigEndian(6, v));
    FromBigEndianRoundTrip(s);
  }

  lemma {:induction false} ValueOf(a: byte, b: byte, s: bytes)
    ensures FromBigEndian([a, b] + s) == (256 * a + b) * Pow256(|s|) + FromBigEndian(s)
  {
    if s == [] {
      assert [a, b] + s == [a, b] && [a, b][..1] == [a];
      assert FromBigEndian([a]) == a;
    } else {
      var n := |s| - 1;
      ValueOf(a, b, s[..n]);
      assert ([a, b] + s)[..n + 2] == [a, b] + s[..n];
      assert 256 * ((256 * a + b) * Pow256(n)) == (256 * a + b) * Pow256(n + 1);
    }
  }

  lemma HeaderBytes(d: bytes, h: Header, fieldCount: nat, opCount: nat)
    requires |d| >= 30 && At(d, 8, HeaderTail(h, fieldCount, opCount))
    ensures d[8] == 22 && d[12] == 0 && d[13] == 0 && d[22..26] == [0, 0, 0, 0]
  {
    hide BigEndian;
    var t := HeaderTail(h, fieldCount, opCount);
    assert d[8..30] == t;
    assert d[8] == d[8..30][0] && d[12] == d[8..30][4] && d[13] == d[8..30][5];
    Slice(d, 8, 30, 14, 18);
    assert t[14..18] == [0, 0, 0, 0];
  }

  lemma Slice(d: bytes, lo: nat, hi: nat, i: nat, j: nat)
    requires lo + j <= hi <= |d| && i <= j
    ensures d[lo..hi][i..j] == d[lo + i..lo + j]
  {
    var x, y := d[lo..hi][i..j], d[lo + i..lo + j];
    forall k | 0 <= k < j - i ensures x[k] == y[k] {
    }
  }

  lemma {:induction false} FindJoin(a: seq<Field>, b: seq<Field>, code: int)
    ensures Find(a + b, code) == if Find(a, code).Some? then Find(a, code) else Find(b, code)
  {
    if a == [] {
      assert a + b == b;
    } else {
      FindJoin(a[1..], b, code);
      assert (a + b)[1..] == a[1..] + b;
    }
  }

  lemma FindOne(f: Field, code: int)
    ensures Find([f], code) == if f.code == code then Some(f.body) else None
  {
    assert [f][1..] == [];
  }

  lemma FindNonEmpty(fieldCode: byte, body: bytes, code: int)
    ensures Find(NonEmptyField(fieldCode, body), code) == if body != [] && fieldCode == code then Some(body) else None
  {
    FindOne(Field(fieldCode, body), code);
  }

  /** Where each code is found in the fields of a record, with fields of other codes behind them. */
  lemma FindInRecord(key: Key, sendKey: bool, filter: Option<FilterExpression>, more: seq<Field>, code: int)
    requires ValidKey(key) && ValidFilter(filter) && Find(more, code).None?
    ensures Find(RecordFields(key, sendKey, filter) + more, code) ==
      if code == 0 && key.namespace != [] then Some(key.namespace)
      else if code == 1 && key.setName != [] then Some(key.setName)
      else if code == 4 then Some(key.digest)
      else if code == 2 && sendKey && key.userKey.Some?
           then Some([ParticleType(key.userKey.value)] + ParticleBytes(key.userKey.value))
      else if code == 43 && filter.Some? then Some(EncExp(filter.value))
      else None
  {
    hide Find, NonEmptyField, ParticleType, ParticleBytes, Storable, EncExp, Packable;
    var ns, table := NonEmptyField(NAMESPACE, key.namespace), NonEmptyField(TABLE, key.setName);
    var digest, user := [Field(DIGEST_RIPE, key.digest)], UserKeyFields(key, sendKey);
    FindNonEmpty(NAMESPACE, key.namespace, code);
    FindNonEmpty(TABLE, key.setName, code);
    FindOne(digest[0], code);
    FindNothing(code);
    if sendKey && key.userKey.Some? { FindOne(user[0], code); }
    if filter.Some? { FindOne(FilterFields(filter)[0], code); }
    FindJoin(ns, table, code);
    FindJoin(ns + table, digest, code);
    FindJoin(ns + table + digest, user, code);
    FindJoin(ns + table + digest + user, FilterFields(filter), code);
    FindJoin(RecordFields(key, sendKey, filter), more, code);
  }

  lemma FindNothing(code: int)
    ensures Find([], code) == None
  {
  }

  lemma RecordIsNamed(key: Key, sendKey: bool, filter: Option<FilterExpression>, more: seq<Field>)
    requires ValidKey(key) && ValidFilter(filter)
    requires forall i :: 0 <= i < |more| ==> more[i].code in {30, 31, 32}
    ensures NamesRecord(RecordFields(key, sendKey, filter) + more, key, sendKey, filter)
  {
    hide Find, RecordFields, ParticleType, ParticleBytes, Storable, EncExp, Packable;
    forall code | code in {0, 1, 2, 4, 43} ensures Find(more, code) == None {
      NotFound(more, code);
    }
    FindInRecord(key, sendKey, filter, more, 0);
    FindInRecord(key, sendKey, filter, more, 1);
    FindInRecord(key, sendKey, filter, more, 2);
    FindInRecord(key, sendKey, filter, more, 4);
    FindInRecord(key, sendKey, filter, more, 43);
  }

  lemma {:induction false} NotFound(fields: seq<Field>, code: int)
    requires forall i :: 0 <= i < |fields| ==> fields[i].code != code
    ensures Find(fields, code) == None
  {
    if fields != [] {
      NotFound(fields[1..], code);
    }
  }

  /** How many fields a key takes. */
  function KeyCount(key: Key, sendKey: bool): nat
  {
    (if key.namespace == [] then 0 else 1) + (if key.setName == [] then 0 else 1) + 1
    + (if sendKey && key.userKey.Some? then 1 else 0)
  }

  /** The fields of a key alone, wherever they were written. */
  lemma KeyIsNamed(key: Key, sendKey: bool, d: bytes, at: nat)
    requires ValidKey(key) && At(d, at, FieldsBytes(KeyFields(key, sendKey))) && |d| < 0x1_0000_0000
    ensures var r := ReadFields(d, at, KeyCount(key, sendKey));
      r.Some? && NamesRecord(r.value.0, key, sendKey, None) && r.value.1 == at + |FieldsBytes(KeyFields(key, sendKey))|
  {
    hide Find, FieldsBytes, NamesRecord, ReadFields, At, ParticleType, ParticleBytes, Storable;
    var fields := KeyFields(key, sendKey);
    assert |fields| == KeyCount(key, sendKey);
    FieldsRead(fields, d, at);
    RecordIsNamed(key, sendKey, None, []);
    assert RecordFields(key, sendKey, None) + [] == fields;
  }

  lemma RecordCodes(key: Key, sendKey: bool, filter: Option<FilterExpression>)
    requires ValidKey(key) && ValidFilter(filter)
    ensures var fields := RecordFields(key, sendKey, filter);
      |fields| <= 5 && forall i :: 0 <= i < |fields| ==> fields[i].code in {0, 1, 2, 4, 43}
  {
    hide ParticleType, ParticleBytes, Storable, EncExp, Packable;
  }

  /** A command with the fields of a record and no others. */
  lemma RecordTold(d: bytes, c: Command, key: Key, sendKey: bool, filter: Option<FilterExpression>)
    requires ValidKey(key) && ValidFilter(filter)
    requires d == CommandBytes(c) && CommandSize(c) < 0x1_0000_0000 && c.fields == RecordFields(key, sendKey, filter)
    ensures TellsKey(d, key, sendKey, filter) && TellsOps(d, c.ops)
    ensures Attributes(d, c.header.readAttr, c.header.writeAttr, c.header.infoAttr, c.header.generation,
                       c.header.expiration)
  {
    hide Find, RecordFields, ParticleType, ParticleBytes, Storable, EncExp, Packable, CommandBytes, CommandSize,
         ReadFields, ReadOps, NamesRecord, FromBigEndian;
    RecordCodes(key, sendKey, filter);
    CommandTells(c);
    RecordIsNamed(key, sendKey, filter, []);
    assert RecordFields(key, sendKey, filter) + [] == RecordFields(key, sendKey, filter);
  }

  // ---------------------------------------------------------------------------------------------
  // The commands on one record

  lemma WriteTold(p: WritePolicy, op: byte, key: Key, bins: seq<Bin>)
    requires ValidKey(key) && ValidFilter(p.filter) && forall i :: 0 <= i < |bins| ==> Storable(bins[i].value)
    requires CommandSize(WriteCommand(p, op, key, bins)) < 0x1_0000_0000
    ensures var d := CommandBytes(WriteCommand(p, op, key, bins));
      TellsKey(d, key, p.sendKey, p.filter) && PolicyTold(d, p, 0, 1) && TellsOps(d, Valued(op, bins))
  {
    hide TellsKey, TellsOps, CommandBytes, CommandSize, Storable, ParticleBytes, ParticleType, HasBit, PolicyHeader,
         RecordFields;
    var c := WriteCommand(p, op, key, bins);
    RecordTold(CommandBytes(c), c, key, p.sendKey, p.filter);
    Places();
    PolicySums(p, 0, 1);
    PolicyNumbers(p, 0, INFO2_WRITE);
    assert BinOps(bins, op) == Valued(op, bins);
  }

  lemma PolicyNumbers(p: WritePolicy, readAttr: byte, writeAttr: byte)
    ensures var h := PolicyHeader(p, readAttr, writeAttr);
      h.generation == (if p.generationPolicy.AnyGeneration? then 0 else p.generation) && h.expiration == p.expiration
  {
  }

  lemma DeleteTold(p: WritePolicy, key: Key)
    requires ValidKey(key) && ValidFilter(p.filter) && CommandSize(DeleteCommand(p, key)) < 0x1_0000_0000
    ensures var d := CommandBytes(DeleteCommand(p, key));
      TellsKey(d, key, false, p.filter) && PolicyTold(d, p, 0, 1 + 2) && TellsOps(d, [])
  {
    hide TellsKey, TellsOps, CommandBytes, CommandSize, HasBit, PolicyHeader, RecordFields;
    var c := DeleteCommand(p, key);
    RecordTold(CommandBytes(c), c, key, false, p.filter);
    assert BitOr(INFO2_WRITE, INFO2_DELETE) == 3;
    Places();
    PolicySums(p, 0, 3);
    PolicyNumbers(p, 0, 3);
  }

  lemma TouchTold(p: WritePolicy, key: Key)
    requires ValidKey(key) && ValidFilter(p.filter) && CommandSize(TouchCommand(p, key)) < 0x1_0000_0000
    ensures var d := CommandBytes(TouchCommand(p, key));
      TellsKey(d, key, p.sendKey, p.filter) && PolicyTold(d, p, 0, 1) && TellsOps(d, [[11, 0, 0, 0]])
  {
    hide TellsKey, TellsOps, CommandBytes, CommandSize, HasBit, PolicyHeader, RecordFields;
    var c := TouchCommand(p, key);
    RecordTold(CommandBytes(c), c, key, p.sendKey, p.filter);
    Places();
    PolicySums(p, 0, 1);
    PolicyNumbers(p, 0, INFO2_WRITE);
    NoValue(OP_TOUCH, []);
    assert [11, 0, 0, 0] + [] == [11, 0, 0, 0];
  }

  lemma ExistsTold(p: WritePolicy, key: Key)
    requires ValidKey(key) && ValidFilter(p.filter) && CommandSize(ExistsCommand(p, key)) < 0x1_0000_0000
    ensures var d := CommandBytes(ExistsCommand(p, key));
      TellsKey(d, key, false, p.filter) && TellsAttributes(d, p.base.consistencyAll, 1 + 32, 0) && TellsOps(d, [])
  {
    hide TellsKey, TellsOps, CommandBytes, CommandSize, PlainHeader, RecordFields, BitOr;
    var c := ExistsCommand(p, key);
    RecordTold(CommandBytes(c), c, key, false, p.filter);
    PlainSums(p.base.consistencyAll, 0);
  }

  /** Reading the header is reading a bin without a name, of which no data comes back; all bins is a bit of its own. */
  lemma ReadTold(p: BasePolicy, key: Key, bins: Bins)
    requires ValidKey(key) && ValidFilter(p.filter) && CommandSize(ReadCommandOf(p, key, bins)) < 0x1_0000_0000
    ensures var d := CommandBytes(ReadCommandOf(p, key, bins));
      && TellsKey(d, key, false, p.filter)
      && TellsAttributes(d, p.consistencyAll,
                         match bins case NoBins => 1 + 32 case AllBins => 1 + 2 case SomeBins(_) => 1, 0)
      && TellsOps(d, match bins case NoBins => Unvalued(1, [[]]) case AllBins => []
                                case SomeBins(names) => Unvalued(1, names))
  {
    hide TellsKey, TellsOps, CommandBytes, CommandSize, PlainHeader, RecordFields, BitOr;
    var c := ReadCommandOf(p, key, bins);
    RecordTold(CommandBytes(c), c, key, false, p.filter);
    PlainSums(p.consistencyAll, 0);
    match bins
    case NoBins => NamesAreRead([[]]); assert NameOps([[]]) == c.ops;
    case AllBins =>
    case SomeBins(names) => NamesAreRead(names);
  }

  lemma NamesAreRead(names: seq<bytes>)
    ensures NameOps(names) == Unvalued(1, names)
  {
    forall i | 0 <= i < |names| ensures NameOps(names)[i] == Unvalued(1, names)[i] {
      NoValue(OP_READ, names[i]);
    }
  }

  lemma NoValue(op: byte, name: bytes)
    ensures OpPayload(op, 0, name, []) == [op, 0, 0, |name| % 0x100] + name
  {
  }

  /** The read attribute of an operate command. */
  function OperateRead(os: seq<Operation>): int
  {
    (if SomeRead(os) then 1 else 0) + (if SomeReadAll(os) then 2 else 0) + (if SomeReadNone(os) then 32 else 0)
  }

  /** It is sent with the policy and the user key exactly if an operation writes or asks for a response of its own. */
  lemma OperateTold(p: WritePolicy, key: Key, os: seq<Operation>)
    requires ValidKey(key) && ValidFilter(p.filter) && forall i :: 0 <= i < |os| ==> ValidOperation(os[i])
    requires CommandSize(OperateCommand(p, key, os)) < 0x1_0000_0000
    ensures var d, writes, responds := CommandBytes(OperateCommand(p, key, os)), SomeWrites(os), SomeRespond(p, os);
      && TellsKey(d, key, p.sendKey && (writes || responds), p.filter)
      && (if writes || responds
          then PolicyTold(d, p, OperateRead(os), (if writes then 1 else 0) + (if responds then 128 else 0))
          else TellsAttributes(d, p.base.consistencyAll, OperateRead(os), 0))
      && TellsOps(d, OperationsTold(os))
  {
    hide TellsKey, TellsOps, CommandBytes, CommandSize, HasBit, BitOr, PolicyHeader, PlainHeader, RecordFields,
         OperateAttrs, OperationOps, ValidOperation, SomeRead, SomeReadAll, SomeReadNone, SomeWrites, SomeRespond,
         OperationsTold;
    var c, attrs := OperateCommand(p, key, os), OperateAttrs(p, os);
    RecordTold(CommandBytes(c), c, key, p.sendKey && attrs.1 != 0, p.filter);
    WriteAttrTells(p, os);
    ReadAttrSum(p, os);
    var r, w := OperateBits(attrs.0, attrs.1);
    PolicySums(p, r, w);
    PolicyNumbers(p, attrs.0, attrs.1);
    PlainOperate(p.base.consistencyAll, r);
    OperationsAreTold(os);
  }

  lemma PlainOperate(consistencyAll: bool, r: bv8)
    requires r & 64 == 0
    ensures PlainHeader(consistencyAll, Number(r), 0) == Header(Number(r) + (if consistencyAll then 64 else 0), 0, 0, 0, 0)
  {
    hide Flag, Number;
    Places();
    FlagAdds(consistencyAll, r, 64);
  }

  /** The attributes of an operate command as bits. */
  lemma OperateBits(read: int, write: int) returns (r: bv8, w: bv8)
    requires read in {0, 1, 3, 33, 35} && write in {0, 1, 128, 129}
    ensures Number(r) == read && Number(w) == write && r & 64 == 0 && w & 60 == 0
  {
    hide Number;
    Places();
    r := match read case 0 => 0 case 1 => 1 case 3 => 3 case 33 => 33 case _ => 35;
    w := match write case 0 => 0 case 1 => 1 case 128 => 128 case _ => 129;
  }

  lemma OperationsAreTold(os: seq<Operation>)
    requires forall i :: 0 <= i < |os| ==> ValidOperation(os[i])
    ensures OperationOps(os) == OperationsTold(os)
  {
    hide OperationOp, OperationTold, ValidOperation;
    forall i | 0 <= i < |os| ensures OperationOp(os[i]) == OperationTold(os[i]) {
      OperationIsTold(os[i]);
    }
  }

  lemma OperationIsTold(o: Operation)
    requires ValidOperation(o)
    ensures OperationOp(o) == OperationTold(o)
  {
    hide EncCdt, EncExp, EncInt, ParticleBytes, ParticleType, Packable, Storable;
  }

  lemma UdfTold(p: WritePolicy, key: Key, packageName: bytes, functionName: bytes, args: Option<seq<Value>>)
    requires ValidKey(key) && ValidFilter(p.filter)
    requires CommandSize(UdfCommand(p, key, packageName, functionName, args)) < 0x1_0000_0000
    ensures var d := CommandBytes(UdfCommand(p, key, packageName, functionName, args));
      && TellsUdf(d, key, p.sendKey, p.filter, packageName, functionName, args)
      && TellsAttributes(d, p.base.consistencyAll, 0, 1) && TellsOps(d, [])
  {
    hide NamesRecord, TellsOps, CommandBytes, CommandSize, PlainHeader, RecordFields, EncArray, FieldsOf, Framed, Find;
    var c := UdfCommand(p, key, packageName, functionName, args);
    var udf := UdfFields(packageName, functionName, args);
    RecordCodes(key, p.sendKey, p.filter);
    CommandTells(c);
    RecordIsNamed(key, p.sendKey, p.filter, udf);
    CallIsTold(RecordFields(key, p.sendKey, p.filter), packageName, functionName, args);
    PlainSums(p.base.consistencyAll, INFO2_WRITE);
  }

  lemma CallIsTold(front: seq<Field>, packageName: bytes, functionName: bytes, args: Option<seq<Value>>)
    requires forall i :: 0 <= i < |front| ==> front[i].code !in {30, 31, 32}
    ensures TellsCall(front + UdfFields(packageName, functionName, args), packageName, functionName, args)
  {
    hide Find, EncArray;
    var udf := UdfFields(packageName, functionName, args);
    forall code | code in {30, 31, 32}
      ensures Find(front + udf, code) == Some(udf[code - 30].body)
    {
      NotFound(front, code);
      FindJoin(front, udf, code);
      FindInCall(udf, code);
    }
    assert Find(front + udf, 30) == Some(udf[0].body) && Find(front + udf, 31) == Some(udf[1].body);
    assert Find(front + udf, 32) == Some(udf[2].body);
  }

  lemma FindInCall(udf: seq<Field>, code: int)
    requires |udf| == 3 && udf[0].code == 30 && udf[1].code == 31 && udf[2].code == 32 && 30 <= code <= 32
    ensures Find(udf, code) == Some(udf[code - 30].body)
  {
    hide Find;
    FindJoin(udf[..2], udf[2..], code);
    FindJoin(udf[..1], udf[1..2], code);
    assert udf == udf[..2] + udf[2..] && udf[..2] == udf[..1] + udf[1..2];
    assert udf[..1] == [udf[0]] && udf[1..2] == [udf[1]] && udf[2..] == [udf[2]];
    FindOne(udf[0], code);
    FindOne(udf[1], code);
    FindOne(udf[2], code);
  }
}
