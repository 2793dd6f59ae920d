/**
 Operations on lists, maps, bits and HyperLogLogs (src/operations/cdt.rs, src/operations/cdt_context.rs,
 and the packers of src/msgpack/encoder.rs for them).
 */
module Cdt {
  import opened Options
  import opened Bytes
  import opened Values
  import opened CommandBuffer
  import opened Encoding
  import opened Encoder
  import opened Skipper

  datatype CdtContext = CdtContext(id: byte, flags: byte, value: Value)

  datatype CdtArgument =
    | ByteArg(b: byte)
    | IntArg(i: i64)
    | BoolArg(flag: bool)
    | ValueArg(v: Value)
    | ListArg(items: seq<Value>)
    | MapArg(entries: seq<Entry>)

  /** Which packer the operation carries. */
  datatype Codec = CdtCodec | HllCodec | BitCodec

  datatype CdtOperation = CdtOperation(op: byte, codec: Codec, args: seq<CdtArgument>)

  function ArgumentValue(arg: CdtArgument): Value
  {
    match arg
    case ByteArg(b) => Atom(Int(b))
    case IntArg(i) => Atom(Int(i))
    case BoolArg(b) => Atom(Bool(b))
    case ValueArg(v) => v
    case ListArg(items) => List(items)
    case MapArg(entries) => HashMap(entries)
  }

  function ArgumentParts(args: seq<CdtArgument>): (parts: seq<bytes>)
    ensures |parts| == |args|
  {
    seq(|args|, i requires 0 <= i < |args| => Enc(ArgumentValue(args[i])))
  }

  /** Operations merge the flags of a context into its id; expressions send the id alone. */
  function ContextId(c: CdtContext, withFlags: bool): byte
  {
    if withFlags && c.id != 0 then BitOr(c.id, c.flags) else c.id
  }

  function EncContextEntry(c: CdtContext, withFlags: bool): bytes
  {
    EncInt(ContextId(c, withFlags)) + Enc(c.value)
  }

  function ContextParts(ctx: seq<CdtContext>, withFlags: bool): (parts: seq<bytes>)
    ensures |parts| == |ctx|
  {
    seq(|ctx|, i requires 0 <= i < |ctx| => EncContextEntry(ctx[i], withFlags))
  }

  /** The front of [0xff, [id, value, ...], operation]; nothing at all for an empty context. */
  function EncContext(ctx: seq<CdtContext>, withFlags: bool): bytes
  {
    if ctx == [] then []
    else ArrayHeader(3) + EncInt(0xff) + ArrayHeader(2 * |ctx|) + Concat(ContextParts(ctx, withFlags))
  }

  function EncOperation(op: byte, args: seq<CdtArgument>): bytes
  {
    ArrayHeader(|args| + 1) + EncInt(op) + Concat(ArgumentParts(args))
  }

  /** Without a context a list or map operation is a raw code in two bytes and an array of arguments. */
  function EncPlainOperation(op: byte, args: seq<CdtArgument>): bytes
  {
    BigEndian(2, op) + (if args == [] then [] else ArrayHeader(|args|)) + Concat(ArgumentParts(args))
  }

  function EncCdt(o: CdtOperation, ctx: seq<CdtContext>): bytes
  {
    match o.codec
    case CdtCodec =>
      if ctx == [] then EncPlainOperation(o.op, o.args) else EncContext(ctx, true) + EncOperation(o.op, o.args)
    case HllCodec => EncOperation(o.op, o.args)
    case BitCodec => EncContext(ctx, true) + EncOperation(o.op, o.args)
  }

  // ---------------------------------------------------------------------------------------------
  // Packing

  method PackArgument(buf: Buffer?, arg: CdtArgument) returns (size: nat)
    requires Room(buf, |Enc(ArgumentValue(arg))|)
    modifies buf
    ensures Packed(buf, old(DataOf(buf)), old(OffsetOf(buf)), size, Enc(ArgumentValue(arg)))
  {
    hide Splice;
    match arg
    case ByteArg(b) => size := PackValue(buf, Atom(Int(b)));
    case IntArg(i) => size := PackValue(buf, Atom(Int(i)));
    case BoolArg(b) => size := PackValue(buf, Atom(Bool(b)));
    case ValueArg(v) => size := PackValue(buf, v);
    case ListArg(items) => size := PackArray(buf, items);
    case MapArg(entries) => size := PackMap(buf, entries);
  }

  method PackArguments(buf: Buffer?, args: seq<CdtArgument>) returns (size: nat)
    requires Room(buf, |Concat(ArgumentParts(args))|)
    modifies buf
    ensures Packed(buf, old(DataOf(buf)), old(OffsetOf(buf)), size, Concat(ArgumentParts(args)))
  {
    ghost var d, at, parts := DataOf(buf), OffsetOf(buf), ArgumentParts(args);
    hide Splice, Enc, ArgumentValue;
    size := 0;
    PackedNothing(buf);
    assert Concat(parts[..0]) == [];
    for i := 0 to |args|
      invariant Packed(buf, d, at, size, Concat(parts[..i]))
    {
      ConcatStep(parts, i);
      ConcatSplit(parts, i + 1);
      var n := PackArgument(buf, args[i]);
      PackedJoin(buf, d, at, Concat(parts[..i]), parts[i]);
      size := size + n;
    }
    assert parts[..|args|] == parts;
  }

  method PackContextEntry(buf: Buffer?, c: CdtContext, withFlags: bool) returns (size: nat)
    requires Room(buf, |EncContextEntry(c, withFlags)|)
    modifies buf
    ensures Packed(buf, old(DataOf(buf)), old(OffsetOf(buf)), size, EncContextEntry(c, withFlags))
  {
    hide Splice, Enc, EncInt, BitOr;
    ghost var d, at := DataOf(buf), OffsetOf(buf);
    if withFlags && c.id != 0 {
      size := PackInteger(buf, BitOr(c.id, c.flags));
    } else {
      size := PackInteger(buf, c.id);
    }
    var n := PackValue(buf, c.value);
    PackedJoin(buf, d, at, EncInt(ContextId(c, withFlags)), Enc(c.value));
    size := size + n;
  }

  method PackContextEntries(buf: Buffer?, ctx: seq<CdtContext>, withFlags: bool) returns (size: nat)
    requires Room(buf, |Concat(ContextParts(ctx, withFlags))|)
    modifies buf
    ensures Packed(buf, old(DataOf(buf)), old(OffsetOf(buf)), size, Concat(ContextParts(ctx, withFlags)))
  {
    ghost var d, at, parts := DataOf(buf), OffsetOf(buf), ContextParts(ctx, withFlags);
    hide Splice, EncContextEntry;
    size := 0;
    PackedNothing(buf);
    assert Concat(parts[..0]) == [];
    for i := 0 to |ctx|
      invariant Packed(buf, d, at, size, Concat(parts[..i]))
    {
      ConcatStep(parts, i);
      ConcatSplit(parts, i + 1);
      var n := PackContextEntry(buf, ctx[i], withFlags);
      PackedJoin(buf, d, at, Concat(parts[..i]), parts[i]);
      size := size + n;
    }
    assert parts[..|ctx|] == parts;
  }

  method PackContext(buf: Buffer?, ctx: seq<CdtContext>, withFlags: bool) returns (size: nat)
    requires ctx != []
    requires Room(buf, |EncContext(ctx, withFlags)|)
    modifies buf
    ensures Packed(buf, old(DataOf(buf)), old(OffsetOf(buf)), size, EncContext(ctx, withFlags))
  {
    hide Splice, EncInt, ArrayHeader, Concat;
    ghost var d, at := DataOf(buf), OffsetOf(buf);
    size := PackArrayBegin(buf, 3);
    ghost var done := ArrayHeader(3);
    var n := PackInteger(buf, 0xff);
    PackedJoin(buf, d, at, done, EncInt(0xff));
    size, done := size + n, done + EncInt(0xff);
    n := PackArrayBegin(buf, 2 * |ctx|);
    PackedJoin(buf, d, at, done, ArrayHeader(2 * |ctx|));
    size, done := size + n, done + ArrayHeader(2 * |ctx|);
    n := PackContextEntries(buf, ctx, withFlags);
    PackedJoin(buf, d, at, done, Concat(ContextParts(ctx, withFlags)));
    size := size + n;
  }

  method PackOperation(buf: Buffer?, op: byte, args: seq<CdtArgument>) returns (size: nat)
    requires Room(buf, |EncOperation(op, args)|)
    modifies buf
    ensures Packed(buf, old(DataOf(buf)), old(OffsetOf(buf)), size, EncOperation(op, args))
  {
    hide Splice, EncInt, ArrayHeader, Concat;
    ghost var d, at := DataOf(buf), OffsetOf(buf);
    size := PackArrayBegin(buf, |args| + 1);
    var n := PackInteger(buf, op);
    PackedJoin(buf, d, at, ArrayHeader(|args| + 1), EncInt(op));
    var m := PackArguments(buf, args);
    PackedJoin(buf, d, at, ArrayHeader(|args| + 1) + EncInt(op), Concat(ArgumentParts(args)));
    size := size + n + m;
  }

  method PackPlainOperation(buf: Buffer?, op: byte, args: seq<CdtArgument>) returns (size: nat)
    requires Room(buf, |EncPlainOperation(op, args)|)
    modifies buf
    ensures Packed(buf, old(DataOf(buf)), old(OffsetOf(buf)), size, EncPlainOperation(op, args))
  {
    hide Splice, BigEndian, ArrayHeader, Concat;
    ghost var d, at := DataOf(buf), OffsetOf(buf);
    ghost var head := BigEndian(2, op) + if args == [] then [] else ArrayHeader(|args|);
    if buf != null {
      buf.WriteU16(op);
    }
    size := 2;
    if args != [] {
      var n := PackArrayBegin(buf, |args|);
      PackedJoin(buf, d, at, BigEndian(2, op), ArrayHeader(|args|));
      size := size + n;
    } else {
      assert BigEndian(2, op) + [] == BigEndian(2, op);
    }
    var m := PackArguments(buf, args);
    PackedJoin(buf, d, at, head, Concat(ArgumentParts(args)));
    size := size + m;
  }

  method PackWithContext(buf: Buffer?, ctx: seq<CdtContext>, op: byte, args: seq<CdtArgument>) returns (size: nat)
    requires Room(buf, |EncContext(ctx, true) + EncOperation(op, args)|)
    modifies buf
    ensures Packed(buf, old(DataOf(buf)), old(OffsetOf(buf)), size, EncContext(ctx, true) + EncOperation(op, args))
  {
    hide Splice, EncOperation, ArrayHeader, EncInt, Concat;
    ghost var d, at := DataOf(buf), OffsetOf(buf);
    size := 0;
    if ctx != [] {
      size := PackContext(buf, ctx, true);
    } else {
      PackedNothing(buf);
    }
    var n := PackOperation(buf, op, args);
    PackedJoin(buf, d, at, EncContext(ctx, true), EncOperation(op, args));
    size := size + n;
  }

  method PackCdt(buf: Buffer?, o: CdtOperation, ctx: seq<CdtContext>) returns (size: nat)
    requires Room(buf, |EncCdt(o, ctx)|)
    modifies buf
    ensures Packed(buf, old(DataOf(buf)), old(OffsetOf(buf)), size, EncCdt(o, ctx))
  {
    hide Splice, EncContext, EncOperation, EncPlainOperation;
    match o.codec
    case CdtCodec =>
      if ctx == [] {
        size := PackPlainOperation(buf, o.op, o.args);
      } else {
        size := PackWithContext(buf, ctx, o.op, o.args);
      }
    case HllCodec => size := PackOperation(buf, o.op, o.args);
    case BitCodec => size := PackWithContext(buf, ctx, o.op, o.args);
  }

  // ---------------------------------------------------------------------------------------------
  // Structure

  predicate FitsContext(ctx: seq<CdtContext>)
  {
    2 * |ctx| < 0x1_0000_0000 && forall i :: 0 <= i < |ctx| ==> Fits(ctx[i].value)
  }

  predicate FitsArguments(args: seq<CdtArgument>)
  {
    |args| + 1 < 0x1_0000_0000 && forall i :: 0 <= i < |args| ==> Fits(ArgumentValue(args[i]))
  }

  lemma {:induction false} ContextEntriesAreObjects(ctx: seq<CdtContext>, withFlags: bool)
    requires FitsContext(ctx)
    ensures Objects(Concat(ContextParts(ctx, withFlags)), 2 * |ctx|)
  {
    hide Objects, Enc, EncInt, ContextId;
    var parts := ContextParts(ctx, withFlags);
    if ctx == [] {
      NoObjects();
    } else {
      var c := ctx[0];
      IntIsObject(ContextId(c, withFlags));
      ValueIsObject(c.value);
      ObjectsJoin(EncInt(ContextId(c, withFlags)), 1, Enc(c.value), 1);
      ContextEntriesAreObjects(ctx[1..], withFlags);
      assert parts[1..] == ContextParts(ctx[1..], withFlags);
      ObjectsJoin(parts[0], 2, Concat(parts[1..]), 2 * (|ctx| - 1));
    }
  }

  /** A context in front of an object makes one object of both: the array of three that it opens is full. */
  lemma ContextWraps(ctx: seq<CdtContext>, withFlags: bool, o: bytes)
    requires FitsContext(ctx) && Objects(o, 1)
    ensures Objects(EncContext(ctx, withFlags) + o, 1)
  {
    hide Objects, Open, ArrayHeader, EncInt, Concat;
    if ctx == [] {
      assert EncContext(ctx, withFlags) + o == o;
    } else {
      var entries := Concat(ContextParts(ctx, withFlags));
      ContextEntriesAreObjects(ctx, withFlags);
      ArrayHeaderOpens(2 * |ctx|);
      OpenStep(ArrayHeader(2 * |ctx|), 2 * |ctx|, entries, 2 * |ctx|);
      Completed(ArrayHeader(2 * |ctx|) + entries);
      IntIsObject(0xff);
      ArrayHeaderOpens(3);
      OpenStep(ArrayHeader(3), 3, EncInt(0xff), 1);
      OpenStep(ArrayHeader(3) + EncInt(0xff), 2, ArrayHeader(2 * |ctx|) + entries, 1);
      OpenStep(ArrayHeader(3) + EncInt(0xff) + (ArrayHeader(2 * |ctx|) + entries), 1, o, 1);
      Associates(ArrayHeader(3) + EncInt(0xff), ArrayHeader(2 * |ctx|), entries);
      Completed(EncContext(ctx, withFlags) + o);
    }
  }

  lemma OperationIsObject(op: byte, args: seq<CdtArgument>)
    requires FitsArguments(args)
    ensures Objects(EncOperation(op, args), 1)
  {
    hide Objects, Open, ArrayHeader, EncInt, Enc;
    var parts := ArgumentParts(args);
    forall i | 0 <= i < |args| ensures Objects(parts[i], 1) {
      ValueIsObject(ArgumentValue(args[i]));
    }
    ObjectsConcat(parts);
    IntIsObject(op);
    ArrayHeaderOpens(|args| + 1);
    OpenStep(ArrayHeader(|args| + 1), |args| + 1, EncInt(op), 1);
    OpenStep(ArrayHeader(|args| + 1) + EncInt(op), |args|, Concat(parts), |args|);
    Completed(EncOperation(op, args));
  }

  /** The old form is more than one object: its first byte, a zero, is an object of its own. */
  lemma PlainOperationIsNoObject(op: byte, args: seq<CdtArgument>)
    ensures !Objects(EncPlainOperation(op, args), 1)
  {
    hide Concat, ArrayHeader, BigEndian;
    var b := EncPlainOperation(op, args);
    RawCode(op);
    assert b[0] == 0 && |b| >= 2;
    assert SkipObjects(b, 0, 1) == Some(1);
    assert [] + b + [] == b;
    if Objects(b, 1) {
      ObjectsEnd(b, 1, [], []);
    }
  }

  lemma RawCode(op: byte)
    ensures BigEndian(2, op) == [0, op]
  {
    assert BigEndian(1, 0) == [0];
  }

  /** A packed operation is one MessagePack object exactly if it is no list or map operation without a context. */
  lemma CdtIsObject(o: CdtOperation, ctx: seq<CdtContext>)
    requires FitsContext(ctx) && FitsArguments(o.args)
    ensures Objects(EncCdt(o, ctx), 1) <==> o.codec != CdtCodec || ctx != []
  {
    hide Objects, EncContext, EncOperation, EncPlainOperation;
    OperationIsObject(o.op, o.args);
    ContextWraps(ctx, true, EncOperation(o.op, o.args));
    PlainOperationIsNoObject(o.op, o.args);
  }
}
