/**
 A reader of filter expressions: it follows the wire format, an array with an operation code and then the parts
 that the code asks for by position, and knows nothing of how they were packed.  What it sees of a packed
 expression is that expression, part by part.
 */
module ExpReader {
  import opened Options
  import opened Bytes
  import opened Values
  import opened Encoding
  import opened Decoding
  import opened RoundTrip
  import opened Cdt
  import opened Expressions

  /** One step of the way into a nested collection. */
  datatype Step = Step(id: int, value: Datum)

  datatype Seen =
    | SeenValue(value: Datum)
    | SeenQuoted(value: Datum)
    | SeenBin(binType: int, name: bytes)
    | SeenName(code: int, name: bytes)
    | SeenRegex(flags: int, pattern: bytes, operand: Seen)
    | SeenCall(expModule: int, flags: int, contexts: seq<seq<Step>>, arguments: seq<Seen>, operand: Seen)
    | SeenPlainCall(expModule: int, flags: int, value: Datum, operand: Seen)
    | SeenDefinition(name: bytes, exp: Seen)
    | SeenOp(code: int, parts: seq<Seen>)

  // ---------------------------------------------------------------------------------------------
  // The reader

  /** The number of elements of an array, and where the first one is. */
  function ArrayCount(d: bytes, at: nat): (r: Option<(nat, nat)>)
    ensures r.Some? ==> at < |d| && r.value.1 > at
  {
    if at >= |d| then None
    else
      var t: int, p := d[at], at + 1;
      if 0x90 <= t <= 0x9f then Some((t - 0x90, p))
      else if t == 0xdc && p + 2 <= |d| then Some((FromBigEndian(d[p..p + 2]), p + 2))
      else if t == 0xdd && p + 4 <= |d| then Some((FromBigEndian(d[p..p + 4]), p + 4))
      else None
  }

  function ReadDatum(d: bytes, at: nat): (r: Option<(Datum, nat)>)
    ensures r.Some? ==> at < |d| && r.value.1 > at
  {
    match DecValue(d, at)
    case Done(v, next) => Some((v, next))
    case _ => None
  }

  function ReadInt(d: bytes, at: nat): (r: Option<(int, nat)>)
    ensures r.Some? ==> at < |d| && r.value.1 > at
  {
    match DecValue(d, at)
    case Done(DAtom(Int(i)), next) => Some((i, next))
    case _ => None
  }

  /** A str that is all text: names and patterns have no particle code. */
  function ReadRaw(d: bytes, at: nat): (r: Option<(bytes, nat)>)
    ensures r.Some? ==> at < |d| && r.value.1 > at
  {
    if at >= |d| then None
    else
      var t: int, p := d[at], at + 1;
      if 0xa0 <= t <= 0xbf then Content(d, p, t - 0xa0)
      else if t == 0xda && p + 2 <= |d| then Content(d, p + 2, FromBigEndian(d[p..p + 2]))
      else if t == 0xdb && p + 4 <= |d| then Content(d, p + 4, FromBigEndian(d[p..p + 4]))
      else None
  }

  function Content(d: bytes, at: nat, n: nat): (r: Option<(bytes, nat)>)
    ensures r.Some? ==> r.value.1 >= at
  {
    if at + n <= |d| then Some((d[at..at + n], at + n)) else None
  }

  /** An array is an operation, anything else a value. */
  function ReadExp(d: bytes, at: nat): (r: Option<(Seen, nat)>)
    ensures r.Some? ==> at < |d| && r.value.1 > at
    decreases Left(d, at), 0
  {
    match ArrayCount(d, at)
    case None =>
      (match ReadDatum(d, at)
       case Some((v, next)) => Some((SeenValue(v), next))
       case None => None)
    case Some((count, first)) =>
      match ReadInt(d, first)
      case Some((code, next)) => if count == 0 then None else ReadOperation(d, next, code, count - 1)
      case None => None
  }

  /** The `n` parts behind the code. */
  function ReadOperation(d: bytes, at: nat, code: int, n: nat): (r: Option<(Seen, nat)>)
    ensures r.Some? ==> r.value.1 >= at
    decreases Left(d, at), 2
  {
    if code == 7 && n == 3 then
      match ReadInt(d, at)
      case None => None
      case Some((flags, p)) =>
        match ReadRaw(d, p)
        case None => None
        case Some((pattern, q)) =>
          match ReadExp(d, q)
          case None => None
          case Some((operand, end)) => Some((SeenRegex(flags, pattern, operand), end))
    else if code == 81 && n == 2 then
      match ReadInt(d, at)
      case None => None
      case Some((binType, p)) =>
        match ReadRaw(d, p)
        case None => None
        case Some((name, end)) => Some((SeenBin(binType, name), end))
    else if (code == 82 || code == 124) && n == 1 then
      match ReadRaw(d, at)
      case None => None
      case Some((name, end)) => Some((SeenName(code, name), end))
    else if code == 126 && n == 1 then
      match ReadDatum(d, at)
      case None => None
      case Some((v, end)) => Some((SeenQuoted(v), end))
    else if code == 127 && n == 4 then
      match ReadInt(d, at)
      case None => None
      case Some((expModule, p)) =>
        match ReadInt(d, p)
        case None => None
        case Some((flags, q)) => ReadCall(d, q, expModule, flags)
    else
      match if code == 125 && n % 2 == 1 then ReadLet(d, at, n / 2) else ReadParts(d, at, n)
      case None => None
      case Some((parts, end)) => Some((SeenOp(code, parts), end))
  }

  /** Arguments in an array, or a single value; and what the call is made on. */
  function ReadCall(d: bytes, at: nat, expModule: int, flags: int): (r: Option<(Seen, nat)>)
    ensures r.Some? ==> r.value.1 >= at
    decreases Left(d, at), 2
  {
    if ArrayCount(d, at).None? then
      match ReadDatum(d, at)
      case None => None
      case Some((v, p)) =>
        match ReadExp(d, p)
        case None => None
        case Some((operand, end)) => Some((SeenPlainCall(expModule, flags, v, operand), end))
    else
      match ReadArguments(d, at)
      case None => None
      case Some(((contexts, arguments), p)) =>
        match ReadExp(d, p)
        case None => None
        case Some((operand, end)) => Some((SeenCall(expModule, flags, contexts, arguments, operand), end))
  }

  function ReadParts(d: bytes, at: nat, n: nat): (r: Option<(seq<Seen>, nat)>)
    ensures r.Some? ==> r.value.1 >= at
    decreases Left(d, at), 1
  {
    if n == 0 then Some(([], at))
    else
      match ReadExp(d, at)
      case None => None
      case Some((part, next)) =>
        match ReadParts(d, next, n - 1)
        case None => None
        case Some((parts, end)) => Some(([part] + parts, end))
  }

  /** `n` names with an expression each, and an expression in which they are known. */
  function ReadLet(d: bytes, at: nat, n: nat): (r: Option<(seq<Seen>, nat)>)
    ensures r.Some? ==> r.value.1 >= at
    decreases Left(d, at), 1
  {
    if n == 0 then
      match ReadExp(d, at)
      case None => None
      case Some((body, end)) => Some(([body], end))
    else
      match ReadRaw(d, at)
      case None => None
      case Some((name, p)) =>
        match ReadExp(d, p)
        case None => None
        case Some((exp, next)) =>
          match ReadLet(d, next, n - 1)
          case None => None
          case Some((parts, end)) => Some(([SeenDefinition(name, exp)] + parts, end))
  }

  /** An array of the marker 255, a context, and the arguments it is for; or just the arguments. */
  function ReadArguments(d: bytes, at: nat): (r: Option<((seq<seq<Step>>, seq<Seen>), nat)>)
    ensures r.Some? ==> r.value.1 >= at
    decreases Left(d, at), 1
  {
    match ArrayCount(d, at)
    case None => None
    case Some((n, first)) =>
      if n == 3 && ReadInt(d, first).Some? && ReadInt(d, first).value.0 == 255 then
        match ReadContext(d, ReadInt(d, first).value.1)
        case None => None
        case Some((steps, p)) =>
          match ReadArguments(d, p)
          case None => None
          case Some(((contexts, arguments), end)) => Some((([steps] + contexts, arguments), end))
      else
        match ReadParts(d, first, n)
        case None => None
        case Some((arguments, end)) => Some((([], arguments), end))
  }

  /** An array of pairs. */
  function ReadContext(d: bytes, at: nat): (r: Option<(seq<Step>, nat)>)
    ensures r.Some? ==> r.value.1 >= at
  {
    match ArrayCount(d, at)
    case None => None
    case Some((n, first)) => if n % 2 == 0 then ReadSteps(d, first, n / 2) else None
  }

  function ReadSteps(d: bytes, at: nat, n: nat): (r: Option<(seq<Step>, nat)>)
    ensures r.Some? ==> r.value.1 >= at
    decreases n
  {
    if n == 0 then Some(([], at))
    else
      match ReadInt(d, at)
      case None => None
      case Some((id, p)) =>
        match ReadDatum(d, p)
        case None => None
        case Some((v, next)) =>
          match ReadSteps(d, next, n - 1)
          case None => None
          case Some((steps, end)) => Some(([Step(id, v)] + steps, end))
  }

  // ---------------------------------------------------------------------------------------------
  // What there is to see

  /** The expression itself, with its values as they come back from the wire. */
  function See(e: FilterExpression): Seen
    requires Packable(e)
    decreases e, 1
  {
    if e.exps.Parts? then
      if e.val.Some? then SeenDefinition(Text(e.val), See(e.exps.list[0]))
      else SeenOp(e.cmd.value, SeeAll(e.exps.list))
    else if e.cmd.None? then SeenValue(ReadBack(e.val.value))
    else
      match e.cmd.value
      case 7 => SeenRegex(e.flags.value, Text(e.val), See(e.bin.value))
      case 81 => SeenBin(e.expModule.value, Text(e.val))
      case 82 => SeenName(82, Text(e.val))
      case 124 => SeenName(124, Text(e.val))
      case 127 =>
        if e.arguments.Arguments?
        then SeenCall(e.expModule.value, e.flags.value, SeeContexts(e.arguments.list), SeePlain(e.arguments.list),
                      See(e.bin.value))
        else SeenPlainCall(e.expModule.value, e.flags.value, ReadBack(e.val.value), See(e.bin.value))
      case code =>
        if e.val.None? then SeenOp(code, [])
        else if code == 126 then SeenQuoted(ReadBack(e.val.value))
        else SeenOp(code, [SeenValue(ReadBack(e.val.value))])
  }

  function SeeAll(exps: seq<FilterExpression>): (parts: seq<Seen>)
    requires forall i :: 0 <= i < |exps| ==> Packable(exps[i])
    ensures |parts| == |exps|
    decreases exps, 0
  {
    seq(|exps|, i requires 0 <= i < |exps| => See(exps[i]))
  }

  function SeeSteps(ctx: seq<CdtContext>): (steps: seq<Step>)
    ensures |steps| == |ctx|
  {
    seq(|ctx|, i requires 0 <= i < |ctx| => Step(ctx[i].id, ReadBack(ctx[i].value)))
  }

  /** The contexts that are not empty, wherever they stand among the arguments. */
  function SeeContexts(args: seq<Argument>): seq<seq<Step>>
  {
    if args == [] then []
    else (if args[0].ContextArgument? && args[0].ctx != [] then [SeeSteps(args[0].ctx)] else []) + SeeContexts(args[1..])
  }

  /** The other arguments. */
  function SeePlain(args: seq<Argument>): seq<Seen>
    requires forall i :: 0 <= i < |args| ==> PackableArgument(args[i])
    decreases args, 1
  {
    if args == [] then []
    else
      assert args decreases to args[0];
      (if args[0].ContextArgument? then [] else [SeeArgument(args[0])]) + SeePlain(args[1..])
  }

  function SeeArgument(arg: Argument): Seen
    requires PackableArgument(arg) && !arg.ContextArgument?
    decreases arg, 0
  {
    match arg
    case ValueArgument(v) => SeenValue(ReadBack(v))
    case ExpArgument(exp) => See(exp)
  }

  // ---------------------------------------------------------------------------------------------
  // What the format can tell apart

  /** The keys of every map in the values of the expression can be hashed, as the type of a map guarantees. */
  predicate Hashes(e: FilterExpression)
    requires Packable(e)
    decreases e, 1
  {
    if e.exps.Parts? then
      if e.val.Some? then Hashes(e.exps.list[0])
      else forall i :: 0 <= i < |e.exps.list| ==> Hashes(e.exps.list[i])
    else if e.cmd.None? then Hashable(e.val.value)
    else
      match e.cmd.value
      case 7 => Hashes(e.bin.value)
      case 81 => true
      case 82 => true
      case 124 => true
      case 127 =>
        && Hashes(e.bin.value)
        && if e.arguments.Arguments? then forall i :: 0 <= i < |e.arguments.list| ==> HashesArgument(e.arguments.list[i])
           else Hashable(e.val.value)
      case _ => e.val.Some? ==> Hashable(e.val.value)
  }

  predicate HashesArgument(arg: Argument)
    requires PackableArgument(arg)
    decreases arg, 0
  {
    match arg
    case ValueArgument(v) => Hashable(v)
    case ExpArgument(exp) => Hashes(exp)
    case ContextArgument(ctx) => forall i :: 0 <= i < |ctx| ==> Hashable(ctx[i].value)
  }

  /** A list that is not quoted looks like an operation. */
  predicate Literal(v: Value)
  {
    !v.List?
  }

  /** A code with parts of its own, and as many as that code takes. */
  predicate OwnForm(code: int, n: nat)
  {
    || (code == 7 && n == 3)
    || (code == 81 && n == 2)
    || ((code == 82 || code == 124 || code == 126) && n == 1)
    || (code == 127 && n == 4)
  }

  /**
   No two readings of the bytes are possible: values are no lists unless they are quoted, a definition is in front of
   the expression it is for, general parts are not behind a code that has its own, and no three arguments begin with
   the marker of a context.
   */
  predicate Unambiguous(e: FilterExpression)
    requires Packable(e)
    decreases e, 1
  {
    if e.exps.Parts? then
      if e.val.Some? then Unambiguous(e.exps.list[0])
      else
        && (forall i :: 0 <= i < |e.exps.list| ==> Unambiguous(e.exps.list[i]))
        && (e.cmd.value == 125 ==> DefinitionsFirst(e.exps.list))
        && !OwnForm(e.cmd.value, |e.exps.list|)
    else if e.cmd.None? then Literal(e.val.value)
    else
      match e.cmd.value
      case 7 => Unambiguous(e.bin.value)
      case 81 => true
      case 82 => true
      case 124 => true
      case 127 =>
        && Unambiguous(e.bin.value)
        && if e.arguments.Arguments? then
             && (forall i :: 0 <= i < |e.arguments.list| ==> UnambiguousArgument(e.arguments.list[i]))
             && NoMarker(SeePlain(e.arguments.list))
           else Literal(e.val.value)
      case code => e.val.Some? && code != 126 ==> Literal(e.val.value)
  }

  predicate UnambiguousArgument(arg: Argument)
    requires PackableArgument(arg)
    decreases arg, 0
  {
    match arg
    case ValueArgument(v) => Literal(v)
    case ExpArgument(exp) => Unambiguous(exp)
    case ContextArgument(_) => true
  }

  predicate DefinitionsFirst(exps: seq<FilterExpression>)
  {
    forall i :: 0 <= i < |exps| - 1 ==> IsDefinition(exps[i])
  }

  predicate NoMarker(parts: seq<Seen>)
  {
    |parts| == 3 ==> parts[0] != SeenValue(DAtom(Int(255)))
  }

  // ---------------------------------------------------------------------------------------------
  // Reading what was packed

  lemma CountRead(n: nat, d: bytes, at: nat)
    requires n < 0x1_0000_0000 && At(d, at, ArrayHeader(n))
    ensures ArrayCount(d, at) == Some((n, at + |ArrayHeader(n)|))
  {
    hide BigEndian, FromBigEndian, At, Pow256;
    WidthBounds();
    if n < 16 {
      ByteAt(d, at, 0x90 + n);
    } else if n < 0x1_0000 {
      MarkedAt(d, at, 0xdc, 2, n);
    } else {
      MarkedAt(d, at, 0xdd, 4, n);
    }
  }

  lemma IntRead(i: i64, d: bytes, at: nat)
    requires At(d, at, EncInt(i))
    ensures ReadInt(d, at) == Some((i, at + |EncInt(i)|))
  {
    hide DecValue, EncInt, At;
    IntRoundTrip(i, d, at);
  }

  lemma DatumRead(v: Value, d: bytes, at: nat)
    requires Fits(v) && Hashable(v) && At(d, at, Enc(v))
    ensures ReadDatum(d, at) == Some((ReadBack(v), at + |Enc(v)|))
  {
    hide DecValue, Enc, At;
    ValueRoundTrip(v, d, at);
  }

  lemma RawRead(s: bytes, d: bytes, at: nat)
    requires |s| < 0x1_0000_0000 && At(d, at, EncRawString(s))
    ensures ReadRaw(d, at) == Some((s, at + |EncRawString(s)|))
  {
    hide BigEndian, FromBigEndian, At, Pow256;
    WidthBounds();
    var n := |s|;
    AtSplit(d, at, StrHeader(n), s);
    AtBounds(d, at + |StrHeader(n)|, s);
    if n < 32 {
      ByteAt(d, at, 0xa0 + n);
    } else if n < 0x1_0000 {
      MarkedAt(d, at, 0xda, 2, n);
    } else {
      MarkedAt(d, at, 0xdb, 4, n);
    }
  }

  /** A literal value is not taken for an array. */
  lemma NoArray(v: Value, d: bytes, at: nat)
    requires !v.List? && At(d, at, Enc(v))
    ensures ArrayCount(d, at).None?
  {
    hide EncEntries, BigEndian, FromBigEndian, EncInt, StrHeader, MapHeader;
    FirstBytes(v);
    assert d[at] == d[at..at + |Enc(v)|][0];
  }

  lemma FirstBytes(v: Value)
    requires !v.List?
    ensures Enc(v)[0] !in {0xdc, 0xdd} && !(0x90 <= Enc(v)[0] <= 0x9f)
  {
    hide EncEntries, BigEndian;
    match v
    case Atom(a) =>
      match a {
        case Str(s) => assert EncScalar(a)[0] == StrHeader(|s| + 1)[0];
        case Blob(s) => assert EncScalar(a)[0] == StrHeader(|s| + 1)[0];
        case GeoJSON(s) => assert EncScalar(a)[0] == StrHeader(|s| + 1)[0];
        case HLL(s) => assert EncScalar(a)[0] == StrHeader(|s| + 1)[0];
        case _ =>
      }
    case HashMap(entries) => assert Enc(v)[0] == MapHeader(|entries|)[0];
  }

  /** What is read as an integer is no array. */
  lemma IntIsNoArray(d: bytes, at: nat)
    requires ReadInt(d, at).Some?
    ensures ArrayCount(d, at).None?
    ensures ReadDatum(d, at) == Some((DAtom(Int(ReadInt(d, at).value.0)), ReadInt(d, at).value.1))
  {
    hide DecList, DecMap, DecText, DecSizedText, DecSizedExt, DecInt, DecWide, FromBigEndian;
    if ArrayCount(d, at).Some? {
      var (n, first) := ArrayCount(d, at).value;
      assert DecValue(d, at) == DecList(d, first, n);
      ListIsNoAtom(d, first, n);
    }
  }

  lemma ListIsNoAtom(d: bytes, at: nat, n: nat)
    ensures DecList(d, at, n).Done? ==> DecList(d, at, n).value.DList?
  {
    hide DecValue, DecItems;
  }

  lemma LiteralRead(v: Value, d: bytes, at: nat)
    requires Literal(v) && Fits(v) && Hashable(v) && At(d, at, Enc(v))
    ensures ReadExp(d, at) == Some((SeenValue(ReadBack(v)), at + |Enc(v)|))
  {
    hide ArrayCount, ReadDatum, Enc, At, Hashable, Fits;
    NoArray(v, d, at);
    DatumRead(v, d, at);
  }

  /** The front of an array and the code. */
  lemma FrontRead(count: nat, op: ExpOp, d: bytes, at: nat)
    requires 0 < count < 0x1_0000_0000 && At(d, at, EncFront(count, op))
    ensures ReadExp(d, at) == ReadOperation(d, at + |EncFront(count, op)|, op, count - 1)
  {
    hide ArrayCount, ReadInt, ReadOperation, ArrayHeader, EncInt, At;
    AtSplit(d, at, ArrayHeader(count), EncInt(op));
    CountRead(count, d, at);
    IntRead(op, d, at + |ArrayHeader(count)|);
  }

  lemma {:induction false} StepsRead(ctx: seq<CdtContext>, d: bytes, at: nat)
    requires forall i :: 0 <= i < |ctx| ==> Fits(ctx[i].value) && Hashable(ctx[i].value)
    requires At(d, at, Concat(ContextParts(ctx, false)))
    ensures ReadSteps(d, at, |ctx|) == Some((SeeSteps(ctx), at + |Concat(ContextParts(ctx, false))|))
  {
    hide ReadInt, ReadDatum, Enc, EncInt, At, Fits, Hashable;
    var parts := ContextParts(ctx, false);
    if ctx != [] {
      var c := ctx[0];
      assert parts[1..] == ContextParts(ctx[1..], false);
      assert parts[0] == EncInt(c.id) + Enc(c.value);
      AtSplit(d, at, parts[0], Concat(parts[1..]));
      AtSplit(d, at, EncInt(c.id), Enc(c.value));
      IntRead(c.id, d, at);
      DatumRead(c.value, d, at + |EncInt(c.id)|);
      StepsRead(ctx[1..], d, at + |parts[0]|);
      assert SeeSteps(ctx) == [Step(c.id, ReadBack(c.value))] + SeeSteps(ctx[1..]);
    }
  }

  /** A context is seen, and the arguments behind it are read next. */
  lemma ContextRead(ctx: seq<CdtContext>, d: bytes, at: nat)
    requires ctx != [] && FitsContext(ctx) && (forall i :: 0 <= i < |ctx| ==> Hashable(ctx[i].value))
    requires At(d, at, EncContext(ctx, false))
    ensures var rest := ReadArguments(d, at + |EncContext(ctx, false)|);
      ReadArguments(d, at) == if rest.None? then None
                              else Some((([SeeSteps(ctx)] + rest.value.0.0, rest.value.0.1), rest.value.1))
  {
    hide ArrayCount, ReadInt, ReadSteps, ReadParts, ArrayHeader, EncInt, At, SeeSteps, Concat;
    var a, b, c, s := ArrayHeader(3), EncInt(0xff), ArrayHeader(2 * |ctx|), Concat(ContextParts(ctx, false));
    AtSplit(d, at, a + b + c, s);
    AtSplit(d, at, a + b, c);
    AtSplit(d, at, a, b);
    CountRead(3, d, at);
    IntRead(0xff, d, at + |a|);
    CountRead(2 * |ctx|, d, at + |a + b|);
    StepsRead(ctx, d, at + |a + b + c|);
    var p := at + |a|;
    assert ReadContext(d, ReadInt(d, p).value.1) == Some((SeeSteps(ctx), at + |EncContext(ctx, false)|));
  }

  /** An expression that a program can build and pack. */
  predicate Sound(e: FilterExpression): (r: bool)
    ensures r ==> Packable(e)
  {
    WellFormed(e) && Hashes(e)
  }

  predicate SoundArgument(arg: Argument): (r: bool)
    ensures r ==> PackableArgument(arg)
  {
    WellFormedArgument(arg) && HashesArgument(arg)
  }

  /** One that can be read back. */
  predicate Readable(e: FilterExpression): (r: bool)
    ensures r ==> Packable(e)
  {
    Sound(e) && Unambiguous(e)
  }

  predicate ReadableArgument(arg: Argument): (r: bool)
    ensures r ==> PackableArgument(arg)
  {
    SoundArgument(arg) && UnambiguousArgument(arg)
  }

  lemma {:induction false} ExpRead(e: FilterExpression, d: bytes, at: nat)
    requires Readable(e) && !IsDefinition(e) && At(d, at, EncExp(e))
    ensures ReadExp(d, at) == Some((See(e), at + |EncExp(e)|))
    decreases e, 3
  {
    hide ReadExp, ReadOperation, At, EncFront, Concat, ExpParts, Enc, Literal, DefinitionsFirst, OwnForm, SeeAll,
         EncExp;
    if e.exps.Parts? {
      CompoundRead(e, d, at);
    } else if e.cmd.Some? {
      CommandRead(e, d, at);
    } else {
      LiteralExp(e);
      LiteralRead(e.val.value, d, at);
    }
  }

  lemma LiteralExp(e: FilterExpression)
    requires Readable(e) && e.exps.NoParts? && e.cmd.None?
    ensures EncExp(e) == Enc(e.val.value) && Fits(e.val.value) && Hashable(e.val.value) && Literal(e.val.value)
    ensures See(e) == SeenValue(ReadBack(e.val.value))
  {
    hide Enc, Fits, Hashable, Literal;
  }

  /** All that is known of a compound expression. */
  lemma CompoundFacts(e: FilterExpression)
    requires Readable(e) && e.exps.Parts? && e.val.None?
    ensures var op, exps := e.cmd.value, e.exps.list;
      && EncExp(e) == EncFront(CompoundCount(op, |exps|), op) + Concat(ExpParts(exps))
      && See(e) == SeenOp(op, SeeAll(exps))
      && 0 < CompoundCount(op, |exps|) < 0x1_0000_0000
      && DefinitionCount(exps) == Definitions(op, |exps|)
      && (op == 125 ==> exps != [] && DefinitionsFirst(exps)) && !OwnForm(op, |exps|)
      && (forall i :: 0 <= i < |exps| ==> Packable(exps[i]) && Readable(exps[i]))
  {
    hide EncFront, Concat, DefinitionsFirst, OwnForm, DefinitionCount;
  }

  lemma {:induction false} CompoundRead(e: FilterExpression, d: bytes, at: nat)
    requires Readable(e) && e.exps.Parts? && e.val.None? && At(d, at, EncExp(e))
    ensures ReadExp(d, at) == Some((See(e), at + |EncExp(e)|))
    decreases e, 2
  {
    hide ReadExp, At, EncFront, Concat, ExpParts, EncExp, See, SeeAll, Readable, DefinitionCount, DefinitionsFirst,
         ReadParts, ReadLet;
    CompoundFacts(e);
    var op, exps := e.cmd.value, e.exps.list;
    var count := CompoundCount(op, |exps|);
    AtSplit(d, at, EncFront(count, op), Concat(ExpParts(exps)));
    FrontRead(count, op, d, at);
    var p := at + |EncFront(count, op)|;
    if op == 125 {
      LetRead(exps, d, p);
    } else {
      NoDefinitions(exps);
      PartsRead(exps, d, p);
    }
  }

  lemma {:induction false} NoDefinitions(exps: seq<FilterExpression>)
    requires DefinitionCount(exps) == 0
    ensures forall i :: 0 <= i < |exps| ==> !IsDefinition(exps[i])
  {
    if exps != [] {
      NoDefinitions(exps[1..]);
    }
  }

  lemma ExpPartsFront(exps: seq<FilterExpression>)
    requires exps != [] && forall i :: 0 <= i < |exps| ==> Packable(exps[i])
    ensures Concat(ExpParts(exps)) == EncExp(exps[0]) + Concat(ExpParts(exps[1..]))
    ensures SeeAll(exps) == [See(exps[0])] + SeeAll(exps[1..])
  {
    hide EncExp, See, Packable, Concat, ExpParts, SeeAll;
    PartsTail(exps);
    SeenTail(exps);
    var parts := ExpParts(exps);
    assert Concat(parts) == parts[0] + Concat(parts[1..]) by {
      ConcatFront(parts);
    }
  }

  lemma PartsTail(exps: seq<FilterExpression>)
    requires exps != [] && forall i :: 0 <= i < |exps| ==> Packable(exps[i])
    ensures ExpParts(exps)[0] == EncExp(exps[0]) && ExpParts(exps)[1..] == ExpParts(exps[1..])
  {
    hide EncExp, Packable;
  }

  lemma SeenTail(exps: seq<FilterExpression>)
    requires exps != [] && forall i :: 0 <= i < |exps| ==> Packable(exps[i])
    ensures SeeAll(exps) == [See(exps[0])] + SeeAll(exps[1..])
  {
    hide See, Packable;
  }

  lemma {:induction false} PartsRead(exps: seq<FilterExpression>, d: bytes, at: nat)
    requires forall i :: 0 <= i < |exps| ==> Packable(exps[i]) && Readable(exps[i]) && !IsDefinition(exps[i])
    requires At(d, at, Concat(ExpParts(exps)))
    ensures ReadParts(d, at, |exps|) == Some((SeeAll(exps), at + |Concat(ExpParts(exps))|))
    decreases exps, 0
  {
    hide ReadExp, At, EncExp, See, Readable, IsDefinition, Packable;
    if exps == [] {
      assert ExpParts(exps) == [];
    } else {
      ExpPartsFront(exps);
      AtSplit(d, at, EncExp(exps[0]), Concat(ExpParts(exps[1..])));
      ExpRead(exps[0], d, at);
      PartsRead(exps[1..], d, at + |EncExp(exps[0])|);
    }
  }

  lemma NotCounted(e: FilterExpression, exps: seq<FilterExpression>)
    requires exps == [e] && DefinitionCount(exps) == 0
    ensures !IsDefinition(e)
  {
    NoDefinitions(exps);
  }

  lemma DefinitionFacts(e: FilterExpression)
    requires Readable(e) && IsDefinition(e)
    ensures e.exps.list != [] && Readable(e.exps.list[0]) && !IsDefinition(e.exps.list[0])
    ensures IsText(e.val) && |Text(e.val)| < 0x1_0000_0000
    ensures EncExp(e) == EncRawString(Text(e.val)) + EncExp(e.exps.list[0])
    ensures See(e) == SeenDefinition(Text(e.val), See(e.exps.list[0]))
  {
    hide EncRawString;
  }

  lemma {:induction false} DefinitionRead(e: FilterExpression, d: bytes, at: nat)
    requires Readable(e) && IsDefinition(e) && At(d, at, EncExp(e))
    ensures var name := ReadRaw(d, at);
      && name.Some? && ReadExp(d, name.value.1).Some?
      && See(e) == SeenDefinition(name.value.0, ReadExp(d, name.value.1).value.0)
      && ReadExp(d, name.value.1).value.1 == at + |EncExp(e)|
    decreases e, 4
  {
    hide ReadExp, ReadRaw, At, EncExp, EncRawString, See, Readable;
    DefinitionFacts(e);
    var name := Text(e.val);
    AtSplit(d, at, EncRawString(name), EncExp(e.exps.list[0]));
    RawRead(name, d, at);
    ExpRead(e.exps.list[0], d, at + |EncRawString(name)|);
  }

  lemma {:induction false} LetRead(exps: seq<FilterExpression>, d: bytes, at: nat)
    requires exps != [] && (forall i :: 0 <= i < |exps| ==> Packable(exps[i]) && Readable(exps[i]))
    requires DefinitionsFirst(exps)
    requires DefinitionCount(exps) == |exps| - 1
    requires At(d, at, Concat(ExpParts(exps)))
    ensures ReadLet(d, at, |exps| - 1) == Some((SeeAll(exps), at + |Concat(ExpParts(exps))|))
    decreases exps, 0
  {
    hide ReadExp, ReadRaw, At, EncExp, See, Readable, IsDefinition, Packable, SeeAll;
    ExpPartsFront(exps);
    AtSplit(d, at, EncExp(exps[0]), Concat(ExpParts(exps[1..])));
    if |exps| == 1 {
      NotCounted(exps[0], exps);
      assert ExpParts(exps[1..]) == [] && SeeAll(exps[1..]) == [];
      assert !IsDefinition(exps[0]);
      ExpRead(exps[0], d, at);
      OnePart(d, at, See(exps[0]), at + |EncExp(exps[0])|);
      assert SeeAll(exps) == [See(exps[0])];
      assert EncExp(exps[0]) + [] == EncExp(exps[0]);
    } else {
      assert IsDefinition(exps[0]);
      DefinitionRead(exps[0], d, at);
      assert forall i :: 0 <= i < |exps| - 1 ==> exps[1..][i] == exps[i + 1];
      LetRead(exps[1..], d, at + |EncExp(exps[0])|);
    }
  }

  // ---------------------------------------------------------------------------------------------
  // Commands

  lemma {:induction false} CommandRead(e: FilterExpression, d: bytes, at: nat)
    requires Readable(e) && e.exps.NoParts? && e.cmd.Some? && At(d, at, EncExp(e))
    ensures ReadExp(d, at) == Some((See(e), at + |EncExp(e)|))
    decreases e, 2
  {
    hide ReadExp, ReadOperation, At, EncExp, See, Readable;
    if e.cmd.value == 7 {
      RegexRead(e, d, at);
    } else if e.cmd.value == 127 {
      CallRead(e, d, at);
    } else if e.cmd.value == 81 {
      BinRead(e, d, at);
    } else if e.cmd.value == 82 || e.cmd.value == 124 {
      NameRead(e, d, at);
    } else {
      PlainRead(e, d, at);
    }
  }

  lemma BinRead(e: FilterExpression, d: bytes, at: nat)
    requires Readable(e) && e.exps.NoParts? && e.cmd == Some(81) && At(d, at, EncExp(e))
    ensures ReadExp(d, at) == Some((See(e), at + |EncExp(e)|))
  {
    hide ReadExp, ReadInt, ReadRaw, At, EncFront, EncInt, EncRawString;
    var binType, name := e.expModule.value, Text(e.val);
    var front := EncFront(3, 81);
    assert EncExp(e) == front + EncInt(binType) + EncRawString(name);
    AtSplit(d, at, front + EncInt(binType), EncRawString(name));
    AtSplit(d, at, front, EncInt(binType));
    FrontRead(3, 81, d, at);
    IntRead(binType, d, at + |front|);
    RawRead(name, d, at + |front + EncInt(binType)|);
  }

  lemma NameRead(e: FilterExpression, d: bytes, at: nat)
    requires Readable(e) && e.exps.NoParts? && (e.cmd == Some(82) || e.cmd == Some(124)) && At(d, at, EncExp(e))
    ensures ReadExp(d, at) == Some((See(e), at + |EncExp(e)|))
  {
    hide ReadExp, ReadRaw, At, EncFront, EncRawString;
    var code, name := e.cmd.value, Text(e.val);
    AtSplit(d, at, EncFront(2, code), EncRawString(name));
    FrontRead(2, code, d, at);
    RawRead(name, d, at + |EncFront(2, code)|);
  }

  /** A code alone, or with one value. */
  lemma PlainRead(e: FilterExpression, d: bytes, at: nat)
    requires Readable(e) && e.exps.NoParts? && e.cmd.Some? && e.cmd.value !in {7, 81, 82, 124, 127}
    requires At(d, at, EncExp(e))
    ensures ReadExp(d, at) == Some((See(e), at + |EncExp(e)|))
  {
    hide ReadExp, ReadDatum, At, EncFront, Enc, Literal;
    var code := e.cmd.value;
    if e.val.None? {
      FrontRead(1, code, d, at);
      assert ReadParts(d, at + |EncFront(1, code)|, 0) == Some(([], at + |EncFront(1, code)|));
    } else {
      var v := e.val.value;
      var p := at + |EncFront(2, code)|;
      AtSplit(d, at, EncFront(2, code), Enc(v));
      FrontRead(2, code, d, at);
      if code == 126 {
        DatumRead(v, d, p);
      } else {
        LiteralRead(v, d, p);
        OnePart(d, p, SeenValue(ReadBack(v)), p + |Enc(v)|);
      }
    }
  }

  lemma OnePart(d: bytes, at: nat, part: Seen, end: nat)
    requires ReadExp(d, at) == Some((part, end))
    ensures ReadParts(d, at, 1) == Some(([part], end)) && ReadLet(d, at, 0) == Some(([part], end))
  {
    hide ReadExp;
    assert end >= at && ReadParts(d, end, 0) == Some(([], end));
    assert [part] + [] == [part];
  }

  lemma {:induction false} RegexRead(e: FilterExpression, d: bytes, at: nat)
    requires Readable(e) && e.exps.NoParts? && e.cmd == Some(7) && At(d, at, EncExp(e))
    ensures ReadExp(d, at) == Some((See(e), at + |EncExp(e)|))
    decreases e, 1
  {
    hide ReadExp, ReadInt, ReadRaw, At, EncFront, EncInt, EncRawString;
    var flags, pattern, operand := e.flags.value, Text(e.val), e.bin.value;
    var a := EncFront(4, 7);
    var b := a + EncInt(flags);
    var c := b + EncRawString(pattern);
    assert EncExp(e) == c + EncExp(operand);
    AtSplit(d, at, c, EncExp(operand));
    AtSplit(d, at, b, EncRawString(pattern));
    AtSplit(d, at, a, EncInt(flags));
    FrontRead(4, 7, d, at);
    IntRead(flags, d, at + |a|);
    RawRead(pattern, d, at + |b|);
    ExpRead(operand, d, at + |c|);
  }

  lemma {:induction false} CallRead(e: FilterExpression, d: bytes, at: nat)
    requires Readable(e) && e.exps.NoParts? && e.cmd == Some(127) && At(d, at, EncExp(e))
    ensures ReadExp(d, at) == Some((See(e), at + |EncExp(e)|))
    decreases e, 1
  {
    hide ReadExp, ReadInt, ReadCall, At, EncFront, EncInt, EncArguments, Enc, Literal, SeePlain, SeeContexts, NoMarker;
    var expModule, flags, operand := e.expModule.value, e.flags.value, e.bin.value;
    var middle := if e.arguments.Arguments? then EncArguments(e.arguments.list) else Enc(e.val.value);
    var a := EncFront(5, 127);
    var b := a + EncInt(expModule);
    var c := b + EncInt(flags);
    assert EncExp(e) == c + middle + EncExp(operand);
    AtSplit(d, at, c + middle, EncExp(operand));
    AtSplit(d, at, c, middle);
    AtSplit(d, at, b, EncInt(flags));
    AtSplit(d, at, a, EncInt(expModule));
    FrontRead(5, 127, d, at);
    IntRead(expModule, d, at + |a|);
    IntRead(flags, d, at + |b|);
    ExpRead(operand, d, at + |c + middle|);
    if e.arguments.Arguments? {
      ArgumentsCalled(e.arguments.list, expModule, flags, d, at + |c|);
    } else {
      ValueCalled(e, d, at + |c|);
    }
  }

  lemma ValueCalled(e: FilterExpression, d: bytes, at: nat)
    requires Readable(e) && e.exps.NoParts? && e.cmd == Some(127) && e.arguments.NoArguments?
    requires var v := e.val.value; At(d, at, Enc(v)) && ReadExp(d, at + |Enc(v)|).Some?
    ensures var (operand, end) := ReadExp(d, at + |Enc(e.val.value)|).value;
      ReadCall(d, at, e.expModule.value, e.flags.value)
      == Some((SeenPlainCall(e.expModule.value, e.flags.value, ReadBack(e.val.value), operand), end))
  {
    hide ReadExp, ReadDatum, ReadArguments, ArrayCount, At, Enc, Hashable, Fits;
    NoArray(e.val.value, d, at);
    DatumRead(e.val.value, d, at);
  }

  lemma {:induction false} ArgumentsCalled(args: seq<Argument>, expModule: int, flags: int, d: bytes, at: nat)
    requires FitsPlain(args)
    requires forall i :: 0 <= i < |args| ==> PackableArgument(args[i]) && ReadableArgument(args[i])
    requires NoMarker(SeePlain(args))
    requires At(d, at, EncArguments(args)) && ReadExp(d, at + |EncArguments(args)|).Some?
    ensures var (operand, end) := ReadExp(d, at + |EncArguments(args)|).value;
      ReadCall(d, at, expModule, flags)
      == Some((SeenCall(expModule, flags, SeeContexts(args), SeePlain(args), operand), end))
    decreases args, 4
  {
    hide ReadExp, ReadDatum, ArrayCount, At, EncArguments, SeePlain, SeeContexts, NoMarker, PackableArgument,
         ReadableArgument;
    ArgumentsRead(args, d, at);
    assert ReadArguments(d, at).Some? ==> ArrayCount(d, at).Some?;
  }

  lemma {:induction false} ArgumentsRead(args: seq<Argument>, d: bytes, at: nat)
    requires FitsPlain(args)
    requires forall i :: 0 <= i < |args| ==> PackableArgument(args[i]) && ReadableArgument(args[i])
    requires NoMarker(SeePlain(args)) && At(d, at, EncArguments(args))
    ensures ReadArguments(d, at) == Some(((SeeContexts(args), SeePlain(args)), at + |EncArguments(args)|))
    decreases args, 3
  {
    hide ReadArguments, At, EncContexts, EncPlainArguments, SeePlain, SeeContexts, NoMarker, ReadableArgument,
         PackableArgument;
    AtSplit(d, at, EncContexts(args), EncPlainArguments(args));
    PlainArgumentsRead(args, d, at + |EncContexts(args)|);
    ContextsRead(args, d, at, SeePlain(args), at + |EncArguments(args)|);
  }

  /** All contexts in front of arguments that are read as `parts`. */
  lemma {:induction false} ContextsRead(args: seq<Argument>, d: bytes, at: nat, parts: seq<Seen>, end: nat)
    requires forall i :: 0 <= i < |args| ==> PackableArgument(args[i]) && ReadableArgument(args[i])
    requires At(d, at, EncContexts(args))
    requires ReadArguments(d, at + |EncContexts(args)|) == Some((([], parts), end))
    ensures ReadArguments(d, at) == Some(((SeeContexts(args), parts), end))
  {
    hide ReadArguments, At, EncContext, ReadableArgument, PackableArgument, SeeSteps;
    if args != [] {
      var front := ContextOf(args[0]);
      AtSplit(d, at, front, EncContexts(args[1..]));
      ContextsRead(args[1..], d, at + |front|, parts, end);
      if args[0].ContextArgument? && args[0].ctx != [] {
        ReadableContext(args[0]);
        ContextRead(args[0].ctx, d, at);
      } else {
        NoContext(args[0]);
        assert [] + SeeContexts(args[1..]) == SeeContexts(args[1..]);
      }
    }
  }

  lemma ReadableContext(arg: Argument)
    requires ReadableArgument(arg) && arg.ContextArgument?
    ensures FitsContext(arg.ctx) && forall i :: 0 <= i < |arg.ctx| ==> Hashable(arg.ctx[i].value)
  {
    hide FitsContext, Hashable;
  }

  lemma NoContext(arg: Argument)
    requires !(arg.ContextArgument? && arg.ctx != [])
    ensures ContextOf(arg) == []
  {
  }

  lemma {:induction false} PlainArgumentsRead(args: seq<Argument>, d: bytes, at: nat)
    requires FitsPlain(args)
    requires forall i :: 0 <= i < |args| ==> PackableArgument(args[i]) && ReadableArgument(args[i])
    requires NoMarker(SeePlain(args)) && At(d, at, EncPlainArguments(args))
    ensures ReadArguments(d, at) == Some((([], SeePlain(args)), at + |EncPlainArguments(args)|))
    decreases args, 2
  {
    hide ArrayCount, ReadInt, ReadContext, ReadParts, At, ArrayHeader, Concat, PlainParts, SeePlain, ReadableArgument,
         PackableArgument, NoMarker;
    var n, body := PlainCount(args), Concat(PlainParts(args));
    var first := at + |ArrayHeader(n)|;
    PlainCountFits(args);
    AtSplit(d, at, ArrayHeader(n), body);
    CountRead(n, d, at);
    PlainPartsRead(args, d, first);
    NotTheMarker(d, first, n);
  }

  lemma {:induction false} PlainCountFits(args: seq<Argument>)
    requires forall i :: 0 <= i < |args| ==> PackableArgument(args[i])
    ensures PlainCount(args) <= |args| && |SeePlain(args)| == PlainCount(args)
  {
    hide PackableArgument;
    if args != [] {
      PlainCountFits(args[1..]);
    }
  }

  /** Three parts of which the first is not the number 255 are not taken for a context. */
  lemma NotTheMarker(d: bytes, at: nat, n: nat)
    requires ReadParts(d, at, n).Some? && NoMarker(ReadParts(d, at, n).value.0) && |ReadParts(d, at, n).value.0| == n
    ensures n == 3 && ReadInt(d, at).Some? ==> ReadInt(d, at).value.0 != 255
  {
    hide ArrayCount, ReadInt, ReadDatum, ReadOperation;
    if n == 3 && ReadInt(d, at).Some? {
      IntIsNoArray(d, at);
      assert ReadExp(d, at) == Some((SeenValue(DAtom(Int(ReadInt(d, at).value.0))), ReadInt(d, at).value.1));
      assert ReadParts(d, at, n).value.0[0] == ReadExp(d, at).value.0;
    }
  }

  lemma {:induction false} PlainPartsRead(args: seq<Argument>, d: bytes, at: nat)
    requires forall i :: 0 <= i < |args| ==> PackableArgument(args[i]) && ReadableArgument(args[i])
    requires At(d, at, Concat(PlainParts(args)))
    ensures ReadParts(d, at, PlainCount(args)) == Some((SeePlain(args), at + |Concat(PlainParts(args))|))
    decreases args, 1
  {
    hide ReadExp, At, EncPlainArgument, SeeArgument, ReadableArgument, PackableArgument;
    var parts := PlainParts(args);
    if args != [] {
      assert args decreases to args[0];
      assert parts[1..] == PlainParts(args[1..]);
      AtSplit(d, at, parts[0], Concat(parts[1..]));
      PlainPartsRead(args[1..], d, at + |parts[0]|);
      if args[0].ContextArgument? {
        NothingPlain(args[0]);
        assert [] + SeePlain(args[1..]) == SeePlain(args[1..]);
      } else {
        ArgumentRead(args[0], d, at);
      }
    }
  }

  lemma NothingPlain(arg: Argument)
    requires PackableArgument(arg) && arg.ContextArgument?
    ensures EncPlainArgument(arg) == []
  {
  }

  lemma {:induction false} ArgumentRead(arg: Argument, d: bytes, at: nat)
    requires PackableArgument(arg) && ReadableArgument(arg) && !arg.ContextArgument?
    requires At(d, at, EncPlainArgument(arg))
    ensures ReadExp(d, at) == Some((SeeArgument(arg), at + |EncPlainArgument(arg)|))
    decreases arg, 0
  {
    hide ReadExp, At, Enc, EncExp, See, Fits, Literal, WellFormed, Unambiguous, IsDefinition;
    match arg
    case ValueArgument(v) => LiteralRead(v, d, at);
    case ExpArgument(exp) => ExpRead(exp, d, at);
  }
}
