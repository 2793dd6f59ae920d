/**
 A reader of packed operations on lists, maps, bits and HyperLogLogs: it finds the context step by step, the code of
 the operation, and the arguments in their order.
 */
module CdtReader {
  import opened Options
  import opened Bytes
  import opened Values
  import opened Encoding
  import opened Decoding
  import opened RoundTrip
  import opened Cdt
  import opened ExpReader

  datatype SeenCdt = SeenCdt(context: seq<Step>, op: int, args: seq<Datum>)

  function ReadData(d: bytes, at: nat, n: nat): Option<(seq<Datum>, nat)>
    decreases n
  {
    if n == 0 then Some(([], at))
    else
      match ReadDatum(d, at)
      case None => None
      case Some((v, next)) =>
        match ReadData(d, next, n - 1)
        case None => None
        case Some((rest, end)) => Some(([v] + rest, end))
  }

  /** An array of a code and the arguments. */
  function ReadOperation(d: bytes, at: nat, context: seq<Step>): Option<(SeenCdt, nat)>
  {
    match ArrayCount(d, at)
    case None => None
    case Some((n, first)) =>
      match ReadInt(d, first)
      case None => None
      case Some((op, p)) =>
        if n == 0 then None
        else
          match ReadData(d, p, n - 1)
          case None => None
          case Some((args, end)) => Some((SeenCdt(context, op, args), end))
  }

  /** An array of three, the first of which is 255, holds a context in front of the operation. */
  function ReadCdt(d: bytes, at: nat): Option<(SeenCdt, nat)>
  {
    match ArrayCount(d, at)
    case None => None
    case Some((n, first)) =>
      if n == 3 && ReadInt(d, first).Some? && ReadInt(d, first).value.0 == 255 then
        match ReadContext(d, ReadInt(d, first).value.1)
        case None => None
        case Some((steps, p)) => ReadOperation(d, p, steps)
      else ReadOperation(d, at, [])
  }

  /** The old form: a code of two bytes, and an array of the arguments if there are any before `end`. */
  function ReadOldForm(d: bytes, at: nat, end: nat): Option<(SeenCdt, nat)>
  {
    if at + 2 > |d| then None
    else
      var op := FromBigEndian(d[at..at + 2]);
      if at + 2 >= end then Some((SeenCdt([], op, []), at + 2))
      else
        match ArrayCount(d, at + 2)
        case None => None
        case Some((n, first)) =>
          match ReadData(d, first, n)
          case None => None
          case Some((args, next)) => Some((SeenCdt([], op, args), next))
  }

  // ---------------------------------------------------------------------------------------------
  // What there is to see

  function SeeArgument(arg: CdtArgument): Datum
  {
    match arg
    case ByteArg(b) => DAtom(Int(b))
    case IntArg(i) => DAtom(Int(i))
    case BoolArg(b) => DAtom(Bool(b))
    case ValueArg(v) => ReadBack(v)
    case ListArg(items) => ReadBack(List(items))
    case MapArg(entries) => ReadBack(HashMap(entries))
  }

  function SeeArguments(args: seq<CdtArgument>): (ds: seq<Datum>)
    ensures |ds| == |args|
  {
    seq(|args|, i requires 0 <= i < |args| => SeeArgument(args[i]))
  }

  /** The flags of a step are merged into its id, unless that is 0. */
  function SeePath(ctx: seq<CdtContext>): (steps: seq<Step>)
    ensures |steps| == |ctx|
  {
    seq(|ctx|, i requires 0 <= i < |ctx| =>
      Step(if ctx[i].id == 0 then 0 else BitOr(ctx[i].id, ctx[i].flags), ReadBack(ctx[i].value)))
  }

  predicate HashableContext(ctx: seq<CdtContext>)
  {
    forall i :: 0 <= i < |ctx| ==> Hashable(ctx[i].value)
  }

  predicate HashableArguments(args: seq<CdtArgument>)
  {
    forall i :: 0 <= i < |args| ==> Hashable(ArgumentValue(args[i]))
  }

  lemma {:induction false} DataRead(args: seq<CdtArgument>, d: bytes, at: nat)
    requires FitsArguments(args) && HashableArguments(args) && At(d, at, Concat(ArgumentParts(args)))
    ensures ReadData(d, at, |args|) == Some((SeeArguments(args), at + |Concat(ArgumentParts(args))|))
  {
    hide ReadDatum, Enc, At, Fits, Hashable, SeeArgument, ArgumentValue;
    var parts := ArgumentParts(args);
    if args != [] {
      var v := ArgumentValue(args[0]);
      assert parts[1..] == ArgumentParts(args[1..]) && parts[0] == Enc(v);
      AtSplit(d, at, parts[0], Concat(parts[1..]));
      DatumRead(v, d, at);
      SeenAsValue(args[0]);
      DataRead(args[1..], d, at + |parts[0]|);
      assert SeeArguments(args) == [SeeArgument(args[0])] + SeeArguments(args[1..]);
    }
  }

  lemma SeenAsValue(arg: CdtArgument)
    ensures SeeArgument(arg) == ReadBack(ArgumentValue(arg))
  {
  }

  lemma {:induction false} PathRead(ctx: seq<CdtContext>, d: bytes, at: nat)
    requires FitsContext(ctx) && HashableContext(ctx) && At(d, at, Concat(ContextParts(ctx, true)))
    ensures ReadSteps(d, at, |ctx|) == Some((SeePath(ctx), at + |Concat(ContextParts(ctx, true))|))
  {
    hide ReadInt, ReadDatum, Enc, EncInt, At, Fits, Hashable, BitOr;
    var parts := ContextParts(ctx, true);
    if ctx != [] {
      var c := ctx[0];
      var id := ContextId(c, true);
      assert parts[1..] == ContextParts(ctx[1..], true);
      assert parts[0] == EncInt(id) + Enc(c.value);
      AtSplit(d, at, parts[0], Concat(parts[1..]));
      AtSplit(d, at, EncInt(id), Enc(c.value));
      IntRead(id, d, at);
      DatumRead(c.value, d, at + |EncInt(id)|);
      PathRead(ctx[1..], d, at + |parts[0]|);
      assert SeePath(ctx) == [Step(id, ReadBack(c.value))] + SeePath(ctx[1..]);
    }
  }

  lemma OperationRead(op: byte, args: seq<CdtArgument>, context: seq<Step>, d: bytes, at: nat)
    requires FitsArguments(args) && HashableArguments(args) && At(d, at, EncOperation(op, args))
    ensures ReadOperation(d, at, context)
         == Some((SeenCdt(context, op, SeeArguments(args)), at + |EncOperation(op, args)|))
    ensures ArrayCount(d, at) == Some((|args| + 1, at + |ArrayHeader(|args| + 1)|))
    ensures ReadInt(d, at + |ArrayHeader(|args| + 1)|).Some? && ReadInt(d, at + |ArrayHeader(|args| + 1)|).value.0 == op
  {
    hide ArrayCount, ReadInt, ReadData, ArrayHeader, EncInt, At, Concat, ArgumentParts, SeeArguments, HashableArguments;
    var header := ArrayHeader(|args| + 1);
    AtSplit(d, at, header + EncInt(op), Concat(ArgumentParts(args)));
    AtSplit(d, at, header, EncInt(op));
    CountRead(|args| + 1, d, at);
    IntRead(op, d, at + |header|);
    DataRead(args, d, at + |header + EncInt(op)|);
  }

  /**
   An operation behind a context, or without one, unless it would be taken for a context itself, because it has the
   marker as its code and two arguments.
   */
  lemma NewFormSeen(ctx: seq<CdtContext>, op: byte, args: seq<CdtArgument>, d: bytes, at: nat)
    requires FitsContext(ctx) && HashableContext(ctx) && FitsArguments(args) && HashableArguments(args)
    requires At(d, at, EncContext(ctx, true) + EncOperation(op, args))
    requires ctx != [] || op != 255 || |args| != 2
    ensures ReadCdt(d, at)
         == Some((SeenCdt(SeePath(ctx), op, SeeArguments(args)), at + |EncContext(ctx, true)| + |EncOperation(op, args)|))
  {
    hide ArrayCount, ReadInt, ReadSteps, ReadOperation, ArrayHeader, EncInt, EncOperation, At, Concat, SeePath,
         SeeArguments, FitsArguments, HashableArguments, HashableContext;
    var front := EncContext(ctx, true);
    AtSplit(d, at, front, EncOperation(op, args));
    OperationRead(op, args, SeePath(ctx), d, at + |front|);
    if ctx == [] {
      assert SeePath(ctx) == [] by {
        NoPath();
      }
    } else {
      var a, b, c, s := ArrayHeader(3), EncInt(0xff), ArrayHeader(2 * |ctx|), Concat(ContextParts(ctx, true));
      AtSplit(d, at, a + b + c, s);
      AtSplit(d, at, a + b, c);
      AtSplit(d, at, a, b);
      CountRead(3, d, at);
      IntRead(0xff, d, at + |a|);
      CountRead(2 * |ctx|, d, at + |a + b|);
      PathRead(ctx, d, at + |a + b + c|);
      assert ReadContext(d, at + |a + b|) == Some((SeePath(ctx), at + |front|));
    }
  }

  lemma NoPath()
    ensures SeePath([]) == []
  {
  }

  lemma OldFormSeen(op: byte, args: seq<CdtArgument>, d: bytes, at: nat)
    requires FitsArguments(args) && HashableArguments(args) && At(d, at, EncPlainOperation(op, args))
    ensures ReadOldForm(d, at, at + |EncPlainOperation(op, args)|)
         == Some((SeenCdt([], op, SeeArguments(args)), at + |EncPlainOperation(op, args)|))
  {
    hide ArrayCount, ReadData, ArrayHeader, At, Concat, ArgumentParts, SeeArguments, BigEndian, FromBigEndian,
         HashableArguments;
    var code, data := BigEndian(2, op), Concat(ArgumentParts(args));
    var header := if args == [] then [] else ArrayHeader(|args|);
    AtSplit(d, at, code + header, data);
    AtSplit(d, at, code, header);
    AtBounds(d, at, code);
    ReadBackWidths(op);
    DataRead(args, d, at + |code + header|);
    if args == [] {
      NoData();
    } else {
      CountRead(|args|, d, at + 2);
      assert ArrayHeader(|args|) != [];
    }
  }

  lemma NoData()
    ensures Concat(ArgumentParts([])) == [] && SeeArguments([]) == []
  {
    assert ArgumentParts([]) == [];
  }

  /**
   Main result: a packed operation is seen with its code, its arguments in order, and the steps of its context with
   their flags, which an operation on a HyperLogLog does not send; and nothing is left over.  The one operation that
   would be taken for a context, with the code 255, two arguments and no context, does not exist.
   */
  lemma CdtIsSeen(o: CdtOperation, ctx: seq<CdtContext>, prefix: bytes, suffix: bytes)
    requires FitsContext(ctx) && HashableContext(ctx) && FitsArguments(o.args) && HashableArguments(o.args)
    requires o.op != 255 || |o.args| != 2 || (if ctx == [] then o.codec.CdtCodec? else !o.codec.HllCodec?)
    ensures var d, at, end := prefix + EncCdt(o, ctx) + suffix, |prefix|, |prefix| + |EncCdt(o, ctx)|;
      if o.codec.CdtCodec? && ctx == [] then ReadOldForm(d, at, end) == Some((SeenCdt([], o.op, SeeArguments(o.args)), end))
      else ReadCdt(d, at)
           == Some((SeenCdt(if o.codec.HllCodec? then [] else SeePath(ctx), o.op, SeeArguments(o.args)), end))
  {
    hide ReadCdt, ReadOldForm, EncContext, EncOperation, EncPlainOperation, At, SeePath, SeeArguments, FitsContext,
         FitsArguments, HashableArguments, HashableContext;
    var d, at, b := prefix + EncCdt(o, ctx) + suffix, |prefix|, EncCdt(o, ctx);
    assert At(d, at, b) by {
      Middle(prefix, b, suffix);
    }
    if o.codec.CdtCodec? && ctx == [] {
      OldFormSeen(o.op, o.args, d, at);
    } else if o.codec.HllCodec? {
      NoContextAtAll(EncOperation(o.op, o.args));
      NewFormSeen([], o.op, o.args, d, at);
    } else {
      NewFormSeen(ctx, o.op, o.args, d, at);
    }
  }

  lemma NoContextAtAll(b: bytes)
    ensures EncContext([], true) == [] && SeePath([]) == [] && [] + b == b && FitsContext([]) && HashableContext([])
  {
  }

  lemma Middle(a: bytes, b: bytes, c: bytes)
    ensures At(a + b + c, |a|, b)
  {
    assert (a + b + c)[|a|..|a| + |b|] == b;
  }
}
