/**
 Filter expressions (src/expressions/mod.rs): trees that are packed to nested MessagePack arrays, each
 headed by a count that is computed before the elements are packed.
 */
module Expressions {
  import opened Options
  import opened Bytes
  import opened Values
  import opened CommandBuffer
  import opened Encoding
  import opened Encoder
  import opened RoundTrip
  import Decoding
  import opened Skipper
  import opened Cdt

  /** The code of an operation; those that the packer treats specially have names. */
  type ExpOp = x: int | 0 <= x < 128

  const REGEX: ExpOp := 7
  const BIN: ExpOp := 81
  const BIN_TYPE: ExpOp := 82
  const VAR: ExpOp := 124
  const LET: ExpOp := 125
  const CALL: ExpOp := 127

  datatype Argument =
    | ValueArgument(v: Value)
    | ExpArgument(exp: FilterExpression)
    | ContextArgument(ctx: seq<CdtContext>)

  datatype FilterExpression = FilterExpression(
    cmd: Option<ExpOp>,
    val: Option<Value>,
    bin: Option<FilterExpression>,
    flags: Option<i64>,
    expModule: Option<byte>,
    exps: Parts,
    arguments: Arguments)

  /** An optional list of expressions. */
  datatype Parts = NoParts | Parts(list: seq<FilterExpression>)

  /** An optional list of arguments. */
  datatype Arguments = NoArguments | Arguments(list: seq<Argument>)

  /** Names and patterns are strings, which print as they are. */
  predicate IsText(val: Option<Value>)
  {
    val.Some? && val.value.Atom? && val.value.a.Str?
  }

  function Text(val: Option<Value>): bytes
    requires IsText(val)
  {
    val.value.a.s
  }

  /** No unwrap of a missing part panics, and neither does the index of a definition. */
  predicate Packable(e: FilterExpression)
    decreases e, 0
  {
    if e.exps.Parts? then
      if e.val.Some? then IsText(e.val) && e.exps.list != [] && Packable(e.exps.list[0])
      else
        && e.cmd.Some?
        && (e.cmd.value == LET ==> e.exps.list != [])
        && (forall i :: 0 <= i < |e.exps.list| ==> Packable(e.exps.list[i]))
    else if e.cmd.Some? then
      if e.cmd.value == REGEX then e.flags.Some? && IsText(e.val) && e.bin.Some? && Packable(e.bin.value)
      else if e.cmd.value == CALL then
        && e.expModule.Some? && e.flags.Some?
        && (if e.arguments.Arguments? then forall i :: 0 <= i < |e.arguments.list| ==> PackableArgument(e.arguments.list[i])
            else e.val.Some?)
        && e.bin.Some? && Packable(e.bin.value)
      else if e.cmd.value == BIN then e.expModule.Some? && IsText(e.val)
      else if e.cmd.value == BIN_TYPE || e.cmd.value == VAR then IsText(e.val)
      else true
    else e.val.Some?
  }

  predicate PackableArgument(arg: Argument)
    decreases arg, 0
  {
    arg.ExpArgument? ==> Packable(arg.exp)
  }

  // ---------------------------------------------------------------------------------------------
  // The bytes

  /** [count, operation code], the front of every array. */
  function EncFront(count: nat, op: ExpOp): bytes
  {
    ArrayHeader(count) + EncInt(op)
  }

  function EncExp(e: FilterExpression): bytes
    requires Packable(e)
    decreases e, 1
  {
    if e.exps.Parts? then
      if e.val.Some? then EncRawString(Text(e.val)) + EncExp(e.exps.list[0])
      else EncFront(CompoundCount(e.cmd.value, |e.exps.list|), e.cmd.value) + Concat(ExpParts(e.exps.list))
    else if e.cmd.Some? then
      if e.cmd.value == REGEX then
        EncFront(4, REGEX) + EncInt(e.flags.value) + EncRawString(Text(e.val)) + EncExp(e.bin.value)
      else if e.cmd.value == CALL then
        EncFront(5, CALL) + EncInt(e.expModule.value) + EncInt(e.flags.value)
        + (if e.arguments.Arguments? then EncArguments(e.arguments.list) else Enc(e.val.value))
        + EncExp(e.bin.value)
      else if e.cmd.value == BIN then
        EncFront(3, BIN) + EncInt(e.expModule.value) + EncRawString(Text(e.val))
      else if e.cmd.value == BIN_TYPE || e.cmd.value == VAR then EncFront(2, e.cmd.value) + EncRawString(Text(e.val))
      else if e.val.Some? then EncFront(2, e.cmd.value) + Enc(e.val.value)
      else EncFront(1, e.cmd.value)
    else Enc(e.val.value)
  }

  /** LET counts a name and an expression for all but its last part. */
  function CompoundCount(op: ExpOp, parts: nat): nat
    requires op == LET ==> parts > 0
  {
    if op == LET then (parts - 1) * 2 + 2 else parts + 1
  }

  function ExpParts(exps: seq<FilterExpression>): (parts: seq<bytes>)
    requires forall i :: 0 <= i < |exps| ==> Packable(exps[i])
    ensures |parts| == |exps|
    decreases exps, 0
  {
    seq(|exps|, i requires 0 <= i < |exps| => EncExp(exps[i]))
  }

  /** All contexts first, then an array of the other arguments. */
  function EncArguments(args: seq<Argument>): bytes
    requires forall i :: 0 <= i < |args| ==> PackableArgument(args[i])
    decreases args, 2
  {
    EncContexts(args) + EncPlainArguments(args)
  }

  function EncContexts(args: seq<Argument>): bytes
  {
    if args == [] then []
    else ContextOf(args[0]) + EncContexts(args[1..])
  }

  function ContextOf(arg: Argument): bytes
  {
    if arg.ContextArgument? then EncContext(arg.ctx, false) else []
  }

  function EncPlainArguments(args: seq<Argument>): bytes
    requires forall i :: 0 <= i < |args| ==> PackableArgument(args[i])
    decreases args, 1
  {
    ArrayHeader(PlainCount(args)) + Concat(PlainParts(args))
  }

  function PlainCount(args: seq<Argument>): nat
  {
    if args == [] then 0 else (if args[0].ContextArgument? then 0 else 1) + PlainCount(args[1..])
  }

  function PlainParts(args: seq<Argument>): (parts: seq<bytes>)
    requires forall i :: 0 <= i < |args| ==> PackableArgument(args[i])
    ensures |parts| == |args|
    decreases args, 0
  {
    seq(|args|, i requires 0 <= i < |args| => EncPlainArgument(args[i]))
  }

  function EncPlainArgument(arg: Argument): bytes
    requires PackableArgument(arg)
    decreases arg, 0
  {
    match arg
    case ValueArgument(v) => Enc(v)
    case ExpArgument(exp) => EncExp(exp)
    case ContextArgument(_) => []
  }

  // ---------------------------------------------------------------------------------------------
  // Packing

  method PackFront(buf: Buffer?, count: nat, op: ExpOp) returns (size: nat)
    requires Room(buf, |EncFront(count, op)|)
    modifies buf
    ensures Packed(buf, old(DataOf(buf)), old(OffsetOf(buf)), size, EncFront(count, op))
  {
    hide Splice, EncInt, ArrayHeader;
    ghost var d, at := DataOf(buf), OffsetOf(buf);
    size := PackArrayBegin(buf, count);
    var n := PackInteger(buf, op);
    PackedJoin(buf, d, at, ArrayHeader(count), EncInt(op));
    size := size + n;
  }

  method Pack(buf: Buffer?, e: FilterExpression) returns (size: nat)
    requires Packable(e) && Room(buf, |EncExp(e)|)
    modifies buf
    ensures Packed(buf, old(DataOf(buf)), old(OffsetOf(buf)), size, EncExp(e))
    decreases e, 2
  {
    hide Splice, Enc, EncRawString, EncFront, EncInt, Concat, EncArguments;
    if e.exps.Parts? {
      size := PackExpression(buf, e);
    } else if e.cmd.Some? {
      size := PackCommand(buf, e);
    } else {
      size := PackValue(buf, e.val.value);
    }
  }

  method PackExpression(buf: Buffer?, e: FilterExpression) returns (size: nat)
    requires Packable(e) && e.exps.Parts? && Room(buf, |EncExp(e)|)
    modifies buf
    ensures Packed(buf, old(DataOf(buf)), old(OffsetOf(buf)), size, EncExp(e))
    decreases e, 1
  {
    hide Splice, Enc, EncRawString, EncFront, Concat;
    ghost var d, at := DataOf(buf), OffsetOf(buf);
    var exps := e.exps.list;
    if e.val.Some? {
      // a definition
      size := PackRawString(buf, Text(e.val));
      var n := Pack(buf, exps[0]);
      PackedJoin(buf, d, at, EncRawString(Text(e.val)), EncExp(exps[0]));
      size := size + n;
    } else {
      var count := if e.cmd.value == LET then (|exps| - 1) * 2 + 2 else |exps| + 1;
      size := PackFront(buf, count, e.cmd.value);
      var n := PackAll(buf, exps);
      PackedJoin(buf, d, at, EncFront(count, e.cmd.value), Concat(ExpParts(exps)));
      size := size + n;
    }
  }

  method PackAll(buf: Buffer?, exps: seq<FilterExpression>) returns (size: nat)
    requires forall i :: 0 <= i < |exps| ==> Packable(exps[i])
    requires Room(buf, |Concat(ExpParts(exps))|)
    modifies buf
    ensures Packed(buf, old(DataOf(buf)), old(OffsetOf(buf)), size, Concat(ExpParts(exps)))
    decreases exps, 0
  {
    hide Splice, EncExp, Packable;
    ghost var d, at, parts := DataOf(buf), OffsetOf(buf), ExpParts(exps);
    size := 0;
    PackedNothing(buf);
    assert Concat(parts[..0]) == [];
    for i := 0 to |exps|
      invariant Packed(buf, d, at, size, Concat(parts[..i]))
    {
      ConcatStep(parts, i);
      ConcatSplit(parts, i + 1);
      var n := Pack(buf, exps[i]);
      PackedJoin(buf, d, at, Concat(parts[..i]), parts[i]);
      size := size + n;
    }
    assert parts[..|exps|] == parts;
  }

  method PackCommand(buf: Buffer?, e: FilterExpression) returns (size: nat)
    requires Packable(e) && e.exps.NoParts? && e.cmd.Some? && Room(buf, |EncExp(e)|)
    modifies buf
    ensures Packed(buf, old(DataOf(buf)), old(OffsetOf(buf)), size, EncExp(e))
    decreases e, 1
  {
    hide Splice, Enc, EncRawString, EncFront, EncInt, Concat;
    ghost var d, at := DataOf(buf), OffsetOf(buf);
    var cmd := e.cmd.value;
    if cmd == REGEX {
      size := PackRegex(buf, e);
    } else if cmd == CALL {
      size := PackCall(buf, e);
    } else if cmd == BIN {
      size := PackFront(buf, 3, cmd);
      ghost var done := EncFront(3, cmd);
      var n := PackInteger(buf, e.expModule.value);
      PackedJoin(buf, d, at, done, EncInt(e.expModule.value));
      size, done := size + n, done + EncInt(e.expModule.value);
      n := PackRawString(buf, Text(e.val));
      PackedJoin(buf, d, at, done, EncRawString(Text(e.val)));
      size := size + n;
    } else if cmd == BIN_TYPE || cmd == VAR {
      size := PackFront(buf, 2, cmd);
      var n := PackRawString(buf, Text(e.val));
      PackedJoin(buf, d, at, EncFront(2, cmd), EncRawString(Text(e.val)));
      size := size + n;
    } else if e.val.Some? {
      size := PackFront(buf, 2, cmd);
      var n := PackValue(buf, e.val.value);
      PackedJoin(buf, d, at, EncFront(2, cmd), Enc(e.val.value));
      size := size + n;
    } else {
      size := PackFront(buf, 1, cmd);
    }
  }

  method PackRegex(buf: Buffer?, e: FilterExpression) returns (size: nat)
    requires Packable(e) && e.exps.NoParts? && e.cmd == Some(REGEX) && Room(buf, |EncExp(e)|)
    modifies buf
    ensures Packed(buf, old(DataOf(buf)), old(OffsetOf(buf)), size, EncExp(e))
    decreases e, 0
  {
    hide Splice, Enc, EncRawString, EncFront, EncInt, Concat;
    ghost var d, at := DataOf(buf), OffsetOf(buf);
    size := PackFront(buf, 4, REGEX);
    ghost var done := EncFront(4, REGEX);
    var n := PackInteger(buf, e.flags.value);
    PackedJoin(buf, d, at, done, EncInt(e.flags.value));
    size, done := size + n, done + EncInt(e.flags.value);
    n := PackRawString(buf, Text(e.val));
    PackedJoin(buf, d, at, done, EncRawString(Text(e.val)));
    size, done := size + n, done + EncRawString(Text(e.val));
    n := Pack(buf, e.bin.value);
    PackedJoin(buf, d, at, done, EncExp(e.bin.value));
    size := size + n;
  }

  /** The code of a call, its module, and its flags. */
  method PackCallFront(buf: Buffer?, expModule: byte, flags: i64) returns (size: nat)
    requires Room(buf, |EncFront(5, CALL) + EncInt(expModule) + EncInt(flags)|)
    modifies buf
    ensures Packed(buf, old(DataOf(buf)), old(OffsetOf(buf)), size, EncFront(5, CALL) + EncInt(expModule) + EncInt(flags))
  {
    hide Splice, EncFront, EncInt;
    ghost var d, at := DataOf(buf), OffsetOf(buf);
    size := PackFront(buf, 5, CALL);
    var n := PackInteger(buf, expModule);
    PackedJoin(buf, d, at, EncFront(5, CALL), EncInt(expModule));
    size := size + n;
    n := PackInteger(buf, flags);
    PackedJoin(buf, d, at, EncFront(5, CALL) + EncInt(expModule), EncInt(flags));
    size := size + n;
  }

  method PackCall(buf: Buffer?, e: FilterExpression) returns (size: nat)
    requires Packable(e) && e.exps.NoParts? && e.cmd == Some(CALL) && Room(buf, |EncExp(e)|)
    modifies buf
    ensures Packed(buf, old(DataOf(buf)), old(OffsetOf(buf)), size, EncExp(e))
    decreases e, 0
  {
    hide Splice, Enc, EncRawString, EncFront, EncInt, Concat, EncArguments;
    ghost var d, at := DataOf(buf), OffsetOf(buf);
    size := PackCallFront(buf, e.expModule.value, e.flags.value);
    ghost var done := EncFront(5, CALL) + EncInt(e.expModule.value) + EncInt(e.flags.value);
    var n;
    ghost var middle := if e.arguments.Arguments? then EncArguments(e.arguments.list) else Enc(e.val.value);
    if e.arguments.Arguments? {
      n := PackCallArguments(buf, e.arguments.list);
    } else {
      n := PackValue(buf, e.val.value);
    }
    PackedJoin(buf, d, at, done, middle);
    size, done := size + n, done + middle;
    n := Pack(buf, e.bin.value);
    PackedJoin(buf, d, at, done, EncExp(e.bin.value));
    size := size + n;
  }

  /** Contexts are packed while the other arguments are counted; these follow in a second loop. */
  method PackCallArguments(buf: Buffer?, args: seq<Argument>) returns (size: nat)
    requires forall i :: 0 <= i < |args| ==> PackableArgument(args[i])
    requires Room(buf, |EncArguments(args)|)
    modifies buf
    ensures Packed(buf, old(DataOf(buf)), old(OffsetOf(buf)), size, EncArguments(args))
    decreases args, 1
  {
    hide Splice, EncContexts, ArrayHeader, Concat, PackableArgument;
    ghost var d, at := DataOf(buf), OffsetOf(buf);
    var len;
    size, len := PackContexts(buf, args);
    ghost var done := EncContexts(args);
    Associates(EncContexts(args), ArrayHeader(len), Concat(PlainParts(args)));
    var n := PackArrayBegin(buf, len);
    PackedJoin(buf, d, at, done, ArrayHeader(len));
    size, done := size + n, done + ArrayHeader(len);
    n := PackPlainArguments(buf, args);
    PackedJoin(buf, d, at, done, Concat(PlainParts(args)));
    size := size + n;
  }

  lemma {:induction false} ContextsStep(args: seq<Argument>, i: nat)
    requires i < |args|
    ensures EncContexts(args[..i + 1]) == EncContexts(args[..i]) + ContextOf(args[i])
    ensures PlainCount(args[..i + 1]) == PlainCount(args[..i]) + if args[i].ContextArgument? then 0 else 1
    ensures |EncContexts(args[..i + 1])| <= |EncContexts(args)|
  {
    hide ContextOf;
    if i == 0 {
      assert args[..1][1..] == [] && args[..0] == [];
    } else {
      ContextsStep(args[1..], i - 1);
      assert args[..i + 1][1..] == args[1..][..i];
      assert args[..i][1..] == args[1..][..i - 1];
      Associates(ContextOf(args[0]), EncContexts(args[1..][..i - 1]), ContextOf(args[i]));
    }
  }

  method PackContexts(buf: Buffer?, args: seq<Argument>) returns (size: nat, len: nat)
    requires Room(buf, |EncContexts(args)|)
    modifies buf
    ensures Packed(buf, old(DataOf(buf)), old(OffsetOf(buf)), size, EncContexts(args))
    ensures len == PlainCount(args)
  {
    hide Splice, ContextOf;
    ghost var d, at := DataOf(buf), OffsetOf(buf);
    size, len := 0, 0;
    PackedNothing(buf);
    assert args[..0] == [];
    for i := 0 to |args|
      invariant Packed(buf, d, at, size, EncContexts(args[..i]))
      invariant len == PlainCount(args[..i])
    {
      ContextsStep(args, i);
      if !args[i].ContextArgument? {
        len := len + 1;
      }
      var n := PackContextOf(buf, args[i]);
      PackedJoin(buf, d, at, EncContexts(args[..i]), ContextOf(args[i]));
      size := size + n;
    }
    assert args[..|args|] == args;
  }

  method PackContextOf(buf: Buffer?, arg: Argument) returns (size: nat)
    requires Room(buf, |ContextOf(arg)|)
    modifies buf
    ensures Packed(buf, old(DataOf(buf)), old(OffsetOf(buf)), size, ContextOf(arg))
  {
    hide Splice;
    if arg.ContextArgument? && arg.ctx != [] {
      size := PackContext(buf, arg.ctx, false);
    } else {
      PackedNothing(buf);
      size := 0;
    }
  }

  method PackPlainArguments(buf: Buffer?, args: seq<Argument>) returns (size: nat)
    requires forall i :: 0 <= i < |args| ==> PackableArgument(args[i])
    requires Room(buf, |Concat(PlainParts(args))|)
    modifies buf
    ensures Packed(buf, old(DataOf(buf)), old(OffsetOf(buf)), size, Concat(PlainParts(args)))
    decreases args, 0
  {
    hide Splice, EncPlainArgument, PackableArgument;
    ghost var d, at, parts := DataOf(buf), OffsetOf(buf), PlainParts(args);
    size := 0;
    PackedNothing(buf);
    assert Concat(parts[..0]) == [];
    for i := 0 to |args|
      invariant Packed(buf, d, at, size, Concat(parts[..i]))
    {
      ConcatStep(parts, i);
      ConcatSplit(parts, i + 1);
      var n := PackPlainArgument(buf, args[i]);
      PackedJoin(buf, d, at, Concat(parts[..i]), parts[i]);
      size := size + n;
    }
    assert parts[..|args|] == parts;
  }

  method PackPlainArgument(buf: Buffer?, arg: Argument) returns (size: nat)
    requires PackableArgument(arg) && Room(buf, |EncPlainArgument(arg)|)
    modifies buf
    ensures Packed(buf, old(DataOf(buf)), old(OffsetOf(buf)), size, EncPlainArgument(arg))
    decreases arg, 0
  {
    hide Splice, EncExp, Enc, Packable;
    match arg
    case ValueArgument(v) => size := PackValue(buf, v);
    case ExpArgument(exp) => size := Pack(buf, exp);
    case ContextArgument(_) =>
      PackedNothing(buf);
      size := 0;
  }

  // ---------------------------------------------------------------------------------------------
  // Structure

  /** A definition is packed as two objects, its name and its expression. */
  predicate IsDefinition(e: FilterExpression)
  {
    e.exps.Parts? && e.val.Some?
  }

  /** How many parts of a compound expression must be definitions: all but one in LET, else none. */
  function Definitions(op: ExpOp, parts: nat): int
  {
    if op == LET then parts - 1 else 0
  }

  function DefinitionCount(exps: seq<FilterExpression>): nat
  {
    if exps == [] then 0 else (if IsDefinition(exps[0]) then 1 else 0) + DefinitionCount(exps[1..])
  }

  /** Every compound expression has as many definitions as it should, and all lengths fit. */
  predicate WellFormed(e: FilterExpression): (w: bool)
    ensures w ==> Packable(e)
    decreases e, 0
  {
    && Packable(e)
    && if e.exps.Parts? then
         && FitsParts(e.exps.list)
         && (forall i :: 0 <= i < |e.exps.list| ==> WellFormed(e.exps.list[i]))
         && if e.val.Some? then |Text(e.val)| < 0x1_0000_0000 && !IsDefinition(e.exps.list[0])
            else DefinitionCount(e.exps.list) == Definitions(e.cmd.value, |e.exps.list|)
       else
         && (IsText(e.val) ==> |Text(e.val)| < 0x1_0000_0000)
         && (e.val.Some? ==> Fits(e.val.value))
         && (e.bin.Some? ==> WellFormed(e.bin.value) && !IsDefinition(e.bin.value))
         && (e.arguments.Arguments? ==>
               && FitsPlain(e.arguments.list)
               && forall i :: 0 <= i < |e.arguments.list| ==> WellFormedArgument(e.arguments.list[i]))
  }

  predicate FitsParts(exps: seq<FilterExpression>)
  {
    2 * |exps| + 2 < 0x1_0000_0000
  }

  predicate FitsPlain(args: seq<Argument>)
  {
    |args| < 0x1_0000_0000
  }

  predicate WellFormedArgument(arg: Argument): (w: bool)
    ensures w ==> PackableArgument(arg)
    decreases arg, 0
  {
    match arg
    case ValueArgument(v) => Fits(v)
    case ExpArgument(exp) => WellFormed(exp) && !IsDefinition(exp)
    case ContextArgument(ctx) => FitsContext(ctx)
  }

  function ObjectCount(e: FilterExpression): nat
  {
    if IsDefinition(e) then 2 else 1
  }

  lemma FrontOpens(count: nat, op: ExpOp)
    requires 0 < count < 0x1_0000_0000
    ensures Open(EncFront(count, op), count - 1)
  {
    hide Open, Objects, ArrayHeader, EncInt;
    ArrayHeaderOpens(count);
    IntIsObject(op);
    OpenStep(ArrayHeader(count), count, EncInt(op), 1);
  }

  /** A well-formed expression is one complete MessagePack object, a definition is two. */
  lemma {:induction false} ExpIsObject(e: FilterExpression)
    requires WellFormed(e)
    ensures Objects(EncExp(e), ObjectCount(e))
    decreases e, 2
  {
    hide Objects, Open, EncFront, EncInt, EncRawString, Enc, Concat, EncArguments;
    if e.exps.Parts? {
      if e.val.Some? {
        RawStringIsObject(Text(e.val));
        ExpIsObject(e.exps.list[0]);
        ObjectsJoin(EncRawString(Text(e.val)), 1, EncExp(e.exps.list[0]), 1);
      } else {
        var count := CompoundCount(e.cmd.value, |e.exps.list|);
        var n := DefinitionCount(e.exps.list) + |e.exps.list|;
        PartsAreObjects(e.exps.list);
        FrontOpens(count, e.cmd.value);
        OpenStep(EncFront(count, e.cmd.value), n, Concat(ExpParts(e.exps.list)), n);
        Completed(EncExp(e));
      }
    } else if e.cmd.Some? {
      CommandIsObject(e);
    } else {
      ValueIsObject(e.val.value);
    }
  }

  lemma {:induction false} PartsAreObjects(exps: seq<FilterExpression>)
    requires forall i :: 0 <= i < |exps| ==> WellFormed(exps[i]) && Packable(exps[i])
    ensures Objects(Concat(ExpParts(exps)), |exps| + DefinitionCount(exps))
    decreases exps, 0
  {
    hide Objects, EncExp, WellFormed, Packable, IsDefinition;
    var parts := ExpParts(exps);
    if exps == [] {
      NoObjects();
    } else {
      ExpIsObject(exps[0]);
      PartsAreObjects(exps[1..]);
      assert parts[1..] == ExpParts(exps[1..]);
      ObjectsJoin(parts[0], ObjectCount(exps[0]), Concat(parts[1..]), |exps[1..]| + DefinitionCount(exps[1..]));
    }
  }

  lemma {:induction false} CommandIsObject(e: FilterExpression)
    requires WellFormed(e) && e.exps.NoParts? && e.cmd.Some?
    ensures Objects(EncExp(e), 1)
    decreases e, 1
  {
    hide Objects, Open, EncFront, EncInt, EncRawString, Enc, Concat, EncArguments;
    var cmd := e.cmd.value;
    if cmd == REGEX || cmd == CALL {
      LongCommandIsObject(e);
    } else if cmd == BIN {
      FrontOpens(3, cmd);
      IntIsObject(e.expModule.value);
      RawStringIsObject(Text(e.val));
      OpenStep(EncFront(3, cmd), 2, EncInt(e.expModule.value), 1);
      OpenStep(EncFront(3, cmd) + EncInt(e.expModule.value), 1, EncRawString(Text(e.val)), 1);
      Completed(EncExp(e));
    } else if cmd == BIN_TYPE || cmd == VAR {
      FrontOpens(2, cmd);
      RawStringIsObject(Text(e.val));
      OpenStep(EncFront(2, cmd), 1, EncRawString(Text(e.val)), 1);
      Completed(EncExp(e));
    } else if e.val.Some? {
      FrontOpens(2, cmd);
      ValueIsObject(e.val.value);
      OpenStep(EncFront(2, cmd), 1, Enc(e.val.value), 1);
      Completed(EncExp(e));
    } else {
      FrontOpens(1, cmd);
      Completed(EncExp(e));
    }
  }

  lemma {:induction false} LongCommandIsObject(e: FilterExpression)
    requires WellFormed(e) && e.exps.NoParts? && (e.cmd == Some(REGEX) || e.cmd == Some(CALL))
    ensures Objects(EncExp(e), 1)
    decreases e, 0
  {
    hide Objects, Open, EncFront, EncInt, EncRawString, Enc, Concat, EncArguments;
    ExpIsObject(e.bin.value);
    var bin := EncExp(e.bin.value);
    IntIsObject(e.flags.value);
    if e.cmd == Some(REGEX) {
      FrontOpens(4, REGEX);
      RawStringIsObject(Text(e.val));
      OpenStep(EncFront(4, REGEX), 3, EncInt(e.flags.value), 1);
      OpenStep(EncFront(4, REGEX) + EncInt(e.flags.value), 2, EncRawString(Text(e.val)), 1);
      OpenStep(EncFront(4, REGEX) + EncInt(e.flags.value) + EncRawString(Text(e.val)), 1, bin, 1);
    } else {
      var middle := if e.arguments.Arguments? then EncArguments(e.arguments.list) else Enc(e.val.value);
      if e.arguments.Arguments? {
        ArgumentsAreObject(e.arguments.list);
      } else {
        ValueIsObject(e.val.value);
      }
      var start := EncFront(5, CALL) + EncInt(e.expModule.value);
      FrontOpens(5, CALL);
      IntIsObject(e.expModule.value);
      OpenStep(EncFront(5, CALL), 4, EncInt(e.expModule.value), 1);
      OpenStep(start, 3, EncInt(e.flags.value), 1);
      OpenStep(start + EncInt(e.flags.value), 2, middle, 1);
      OpenStep(start + EncInt(e.flags.value) + middle, 1, bin, 1);
    }
    Completed(EncExp(e));
  }

  /** However many contexts there are, they and the arguments they wrap are one object. */
  lemma {:induction false} ArgumentsAreObject(args: seq<Argument>)
    requires FitsPlain(args) && forall i :: 0 <= i < |args| ==> WellFormedArgument(args[i]) && PackableArgument(args[i])
    ensures Objects(EncArguments(args), 1)
    decreases args, 2
  {
    hide Objects, Open, ArrayHeader, Concat, WellFormedArgument, PackableArgument;
    PlainPartsAreObjects(args);
    ArrayHeaderOpens(PlainCount(args));
    OpenStep(ArrayHeader(PlainCount(args)), PlainCount(args), Concat(PlainParts(args)), PlainCount(args));
    Completed(EncPlainArguments(args));
    ContextsWrap(args, EncPlainArguments(args));
  }

  lemma {:induction false} ContextsWrap(args: seq<Argument>, o: bytes)
    requires Objects(o, 1) && forall i :: 0 <= i < |args| ==> WellFormedArgument(args[i]) && PackableArgument(args[i])
    ensures Objects(EncContexts(args) + o, 1)
  {
    hide Objects, EncContext;
    if args == [] {
      assert EncContexts(args) + o == o;
    } else {
      ContextsWrap(args[1..], o);
      if args[0].ContextArgument? {
        ContextWraps(args[0].ctx, false, EncContexts(args[1..]) + o);
        Associates(EncContext(args[0].ctx, false), EncContexts(args[1..]), o);
      } else {
        assert [] + EncContexts(args[1..]) == EncContexts(args[1..]);
      }
    }
  }

  lemma {:induction false} PlainPartsAreObjects(args: seq<Argument>)
    requires forall i :: 0 <= i < |args| ==> WellFormedArgument(args[i]) && PackableArgument(args[i])
    ensures Objects(Concat(PlainParts(args)), PlainCount(args)) && PlainCount(args) <= |args|
    decreases args, 1
  {
    hide Objects, Enc, EncExp;
    var parts := PlainParts(args);
    if args == [] {
      NoObjects();
    } else {
      assert args decreases to args[0];
      var m := if args[0].ContextArgument? then 0 else 1;
      match args[0] {
        case ValueArgument(v) => ValueIsObject(v);
        case ExpArgument(exp) => ExpIsObject(exp);
        case ContextArgument(_) => NoObjects();
      }
      assert Objects(EncPlainArgument(args[0]), m);
      PlainPartsAreObjects(args[1..]);
      assert parts[1..] == PlainParts(args[1..]);
      ObjectsJoin(parts[0], m, Concat(parts[1..]), PlainCount(args[1..]));
    }
  }

  /** In any surroundings, a structural reader that starts at a packed expression ends on its last byte. */
  lemma ExpressionIsComplete(e: FilterExpression, prefix: bytes, suffix: bytes)
    requires WellFormed(e)
    ensures SkipObjects(prefix + EncExp(e) + suffix, |prefix|, ObjectCount(e)) == Some(|prefix| + |EncExp(e)|)
  {
    hide Objects, EncExp, WellFormed;
    ExpIsObject(e);
    ObjectsEnd(EncExp(e), ObjectCount(e), prefix, suffix);
  }

  /**
   The count in front of a compound expression with well-formed parts is right exactly when it has
   the definitions it should have.
   */
  lemma CompoundIsComplete(e: FilterExpression)
    requires Packable(e) && e.exps.Parts? && e.val.None? && FitsParts(e.exps.list)
    requires forall i :: 0 <= i < |e.exps.list| ==> WellFormed(e.exps.list[i])
    ensures SkipObjects(EncExp(e), 0, 1) == Some(|EncExp(e)|)
            <==> DefinitionCount(e.exps.list) == Definitions(e.cmd.value, |e.exps.list|)
  {
    hide WellFormed, EncFront, Concat, SkipObjects, At, Open, Objects;
    var op, exps := e.cmd.value, e.exps.list;
    var count, n := CompoundCount(op, |exps|), |exps| + DefinitionCount(exps);
    var front, body := EncFront(count, op), Concat(ExpParts(exps));
    PartsAreObjects(exps);
    FrontOpens(count, op);
    FrontThenBody(front, count - 1, body, n);
  }

  /** An array whose header announces `k` more objects, and `n` objects: complete only if k == n. */
  lemma FrontThenBody(front: bytes, k: nat, body: bytes, n: nat)
    requires Open(front, k) && Objects(body, n)
    ensures SkipObjects(front + body, 0, 1) == Some(|front + body|) <==> k == n
  {
    var d := front + body;
    assert d[0..|front|] == front && d[|front|..|front| + |body|] == body;
    assert At(d, 0, front) && At(d, |front|, body);
    assert SkipObjects(d, 0, 1) == SkipObjects(d, |front|, k);
    if k >= n {
      assert SkipObjects(d, |front|, k) == SkipObjects(d, |d|, k - n);
    } else {
      assert SkipObjects(d, |front|, n) == SkipObjects(d, |d|, 0);
      FewerEndEarlier(d, |front|, k, n);
    }
  }

  lemma {:induction false} FewerEndEarlier(d: bytes, at: nat, m: nat, n: nat)
    requires m < n && SkipObjects(d, at, n).Some?
    ensures SkipObjects(d, at, m).Some? && SkipObjects(d, at, m).value < SkipObjects(d, at, n).value
    decreases Decoding.Left(d, at)
  {
    hide HeadOf;
    var h := HeadOf(d, at).value;
    if m == 0 {
      SkipsForward(d, h.next, h.children + (n - 1));
    } else {
      FewerEndEarlier(d, h.next, h.children + (m - 1), h.children + (n - 1));
    }
  }

  lemma {:induction false} SkipsForward(d: bytes, at: nat, n: nat)
    requires SkipObjects(d, at, n).Some?
    ensures SkipObjects(d, at, n).value >= at
    decreases Decoding.Left(d, at)
  {
    hide HeadOf;
    if n > 0 {
      var h := HeadOf(d, at).value;
      SkipsForward(d, h.next, h.children + (n - 1));
    }
  }
}
