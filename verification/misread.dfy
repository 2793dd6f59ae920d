/**
 When the reader of expressions is mistaken.  The bytes of an expression are those of another one exactly if it holds
 a list that is not quoted, a definition behind the expression it is for, a code with parts of its own in front of other
 parts, or three arguments that begin with the marker of a context.
 */
module Misread {
  import opened Options
  import opened Bytes
  import opened Values
  import opened Encoding
  import opened Decoding
  import opened RoundTrip
  import opened Expressions
  import opened ExpReader
  import opened Cdt

  /** If anything is seen at all, it is not the expression. */
  predicate Differs(d: bytes, at: nat, s: Seen)
  {
    ReadExp(d, at).Some? ==> ReadExp(d, at).value.0 != s
  }

  // ---------------------------------------------------------------------------------------------
  // What the shape of the bytes decides

  /** An array is never seen as a value. */
  lemma ArrayIsNoValue(d: bytes, at: nat)
    requires ArrayCount(d, at).Some? && ReadExp(d, at).Some?
    ensures !ReadExp(d, at).value.0.SeenValue?
  {
    hide ArrayCount, ReadInt, ReadParts, ReadLet, ReadRaw, ReadDatum, ReadCall;
    var (count, first) := ArrayCount(d, at).value;
    assert ReadInt(d, first).Some? && count > 0;
    NoOperationIsValue(d, ReadInt(d, first).value.1, ReadInt(d, first).value.0, count - 1);
  }

  lemma NoOperationIsValue(d: bytes, at: nat, code: int, n: nat)
    ensures var r := ReadOperation(d, at, code, n);
      r.Some? ==> !r.value.0.SeenValue? && (r.value.0.SeenOp? ==> !OwnForm(code, n))
  {
    hide ReadInt, ReadParts, ReadLet, ReadRaw, ReadDatum, ReadExp, ArrayCount, ReadArguments;
  }

  lemma ListIsArray(v: Value, d: bytes, at: nat)
    requires v.List? && Fits(v) && At(d, at, Enc(v))
    ensures ArrayCount(d, at).Some?
  {
    hide ArrayCount, At, ArrayHeader, EncItems;
    AtSplit(d, at, ArrayHeader(|v.items|), EncItems(v.items));
    CountRead(|v.items|, d, at);
  }

  lemma ListIsMisread(v: Value, d: bytes, at: nat)
    requires v.List? && Fits(v) && At(d, at, Enc(v))
    ensures Differs(d, at, SeenValue(ReadBack(v)))
  {
    hide ArrayCount, ReadExp, At, Enc;
    ListIsArray(v, d, at);
    if ReadExp(d, at).Some? {
      ArrayIsNoValue(d, at);
    }
  }

  /** In a let, all parts but the last are seen as definitions. */
  lemma {:induction false} LetParts(d: bytes, at: nat, n: nat)
    requires ReadLet(d, at, n).Some?
    ensures var parts := ReadLet(d, at, n).value.0;
      |parts| == n + 1 && forall i :: 0 <= i < n ==> parts[i].SeenDefinition?
    decreases n
  {
    hide ReadExp, ReadRaw;
    if n > 0 {
      var p := ReadRaw(d, at).value.1;
      LetParts(d, ReadExp(d, p).value.1, n - 1);
    }
  }

  lemma OnlyDefinitions(e: FilterExpression)
    requires Packable(e)
    ensures See(e).SeenDefinition? <==> IsDefinition(e)
  {
  }

  // ---------------------------------------------------------------------------------------------
  // Compound expressions

  lemma {:induction false} PartsMisread(exps: seq<FilterExpression>, d: bytes, at: nat)
    requires forall i :: 0 <= i < |exps| ==> Packable(exps[i]) && Sound(exps[i]) && !IsDefinition(exps[i])
    requires exists i :: 0 <= i < |exps| && !Unambiguous(exps[i])
    requires At(d, at, Concat(ExpParts(exps)))
    ensures ReadParts(d, at, |exps|).Some? ==> ReadParts(d, at, |exps|).value.0 != SeeAll(exps)
    decreases exps, 0
  {
    hide ReadExp, At, EncExp, See, Sound, Unambiguous, IsDefinition, Packable;
    var first, rest := exps[0], exps[1..];
    ExpPartsFront(exps);
    AtSplit(d, at, EncExp(first), Concat(ExpParts(rest)));
    if ReadParts(d, at, |exps|).Some? {
      var parts := ReadParts(d, at, |exps|).value.0;
      assert parts[0] == ReadExp(d, at).value.0 && SeeAll(exps)[0] == See(first);
      if Unambiguous(first) {
        assert Readable(first);
        ExpRead(first, d, at);
        var i :| 0 <= i < |exps| && !Unambiguous(exps[i]);
        assert rest[i - 1] == exps[i];
        PartsMisread(rest, d, at + |EncExp(first)|);
        assert parts[1..] == ReadParts(d, at + |EncExp(first)|, |exps| - 1).value.0;
        assert SeeAll(exps)[1..] == SeeAll(rest);
      } else {
        ExpMisread(first, d, at);
      }
    }
  }

  lemma SoundDefinition(e: FilterExpression)
    requires Sound(e) && IsDefinition(e)
    ensures e.exps.list != [] && Sound(e.exps.list[0]) && !IsDefinition(e.exps.list[0])
    ensures IsText(e.val) && |Text(e.val)| < 0x1_0000_0000
    ensures EncExp(e) == EncRawString(Text(e.val)) + EncExp(e.exps.list[0])
    ensures See(e) == SeenDefinition(Text(e.val), See(e.exps.list[0]))
    ensures Unambiguous(e) <==> Unambiguous(e.exps.list[0])
  {
    hide EncRawString;
  }

  /** The name of a definition is read, and the expression behind it is mistaken. */
  lemma {:induction false} DefinitionMisread(e: FilterExpression, d: bytes, at: nat)
    requires Sound(e) && IsDefinition(e) && !Unambiguous(e) && At(d, at, EncExp(e))
    ensures var name := ReadRaw(d, at);
      name.Some? && ReadExp(d, name.value.1).Some? ==>
      SeenDefinition(name.value.0, ReadExp(d, name.value.1).value.0) != See(e)
    decreases e, 4
  {
    hide ReadExp, ReadRaw, At, EncExp, EncRawString, See, Sound, Unambiguous;
    SoundDefinition(e);
    var name, exp := Text(e.val), e.exps.list[0];
    AtSplit(d, at, EncRawString(name), EncExp(exp));
    RawRead(name, d, at);
    ExpMisread(exp, d, at + |EncRawString(name)|);
  }

  lemma {:induction false} LetMisread(exps: seq<FilterExpression>, d: bytes, at: nat)
    requires exps != [] && (forall i :: 0 <= i < |exps| ==> Packable(exps[i]) && Sound(exps[i]))
    requires DefinitionsFirst(exps) && DefinitionCount(exps) == |exps| - 1
    requires exists i :: 0 <= i < |exps| && !Unambiguous(exps[i])
    requires At(d, at, Concat(ExpParts(exps)))
    ensures ReadLet(d, at, |exps| - 1).Some? ==> ReadLet(d, at, |exps| - 1).value.0 != SeeAll(exps)
    decreases exps, 0
  {
    hide ReadExp, ReadRaw, At, EncExp, See, Sound, Unambiguous, IsDefinition, Packable, SeeAll;
    var first, rest := exps[0], exps[1..];
    ExpPartsFront(exps);
    AtSplit(d, at, EncExp(first), Concat(ExpParts(rest)));
    if ReadLet(d, at, |exps| - 1).Some? {
      var parts := ReadLet(d, at, |exps| - 1).value.0;
      if |exps| == 1 {
        NotCounted(first, exps);
        ExpMisread(first, d, at);
        assert parts[0] == ReadExp(d, at).value.0;
      } else {
        assert IsDefinition(first);
        var name := ReadRaw(d, at).value;
        var exp := ReadExp(d, name.1).value;
        assert parts[0] == SeenDefinition(name.0, exp.0);
        if Unambiguous(first) {
          assert Readable(first);
          DefinitionRead(first, d, at);
          var i :| 0 <= i < |exps| && !Unambiguous(exps[i]);
          assert rest[i - 1] == exps[i];
          assert forall j :: 0 <= j < |exps| - 1 ==> rest[j] == exps[j + 1];
          LetMisread(rest, d, at + |EncExp(first)|);
          assert parts[1..] == ReadLet(d, at + |EncExp(first)|, |exps| - 2).value.0;
          assert SeeAll(exps)[1..] == SeeAll(rest);
        } else {
          DefinitionMisread(first, d, at);
        }
      }
    }
  }

  lemma SoundCompound(e: FilterExpression)
    requires Sound(e) && e.exps.Parts? && e.val.None?
    ensures var op, exps := e.cmd.value, e.exps.list;
      && EncExp(e) == EncFront(CompoundCount(op, |exps|), op) + Concat(ExpParts(exps))
      && See(e) == SeenOp(op, SeeAll(exps))
      && 0 < CompoundCount(op, |exps|) < 0x1_0000_0000
      && DefinitionCount(exps) == Definitions(op, |exps|) && (op == 125 ==> exps != [])
      && (forall i :: 0 <= i < |exps| ==> Packable(exps[i]) && Sound(exps[i]))
      && (Unambiguous(e) <==> (forall i :: 0 <= i < |exps| ==> Unambiguous(exps[i]))
                              && (op == 125 ==> DefinitionsFirst(exps)) && !OwnForm(op, |exps|))
  {
    hide EncFront, Concat, DefinitionsFirst, OwnForm, DefinitionCount;
  }

  lemma {:induction false} CompoundMisread(e: FilterExpression, d: bytes, at: nat)
    requires Sound(e) && !Unambiguous(e) && e.exps.Parts? && e.val.None? && At(d, at, EncExp(e))
    ensures Differs(d, at, See(e))
    decreases e, 2
  {
    hide ReadExp, ReadOperation, At, EncFront, Concat, ExpParts, EncExp, See, SeeAll, Sound, Unambiguous,
         DefinitionCount, DefinitionsFirst, ReadParts, ReadLet, OwnForm;
    SoundCompound(e);
    var op, exps := e.cmd.value, e.exps.list;
    var count := CompoundCount(op, |exps|);
    var p := at + |EncFront(count, op)|;
    AtSplit(d, at, EncFront(count, op), Concat(ExpParts(exps)));
    FrontRead(count, op, d, at);
    NoOperationIsValue(d, p, op, count - 1);
    if ReadExp(d, at).Some? && ReadExp(d, at).value.0.SeenOp? {
      GeneralParts(d, p, op, count - 1);
      if op == 125 {
        if DefinitionsFirst(exps) {
          NoOwnLet(|exps|);
          LetMisread(exps, d, p);
        } else {
          LateDefinition(exps, d, p);
        }
      } else {
        NoDefinitions(exps);
        PartsMisread(exps, d, p);
      }
    }
  }

  lemma NoOwnLet(n: nat)
    ensures !OwnForm(125, n)
  {
  }

  /** Where the parts of an operation come from. */
  lemma GeneralParts(d: bytes, at: nat, code: int, n: nat)
    requires var r := ReadOperation(d, at, code, n); r.Some? && r.value.0.SeenOp?
    ensures var r := if code == 125 && n % 2 == 1 then ReadLet(d, at, n / 2) else ReadParts(d, at, n);
      r.Some? && ReadOperation(d, at, code, n).value.0 == SeenOp(code, r.value.0)
  {
    hide ReadInt, ReadParts, ReadLet, ReadRaw, ReadDatum, ReadExp, ReadArguments, ArrayCount;
  }

  lemma LateDefinition(exps: seq<FilterExpression>, d: bytes, at: nat)
    requires exps != [] && (forall i :: 0 <= i < |exps| ==> Packable(exps[i])) && !DefinitionsFirst(exps)
    ensures ReadLet(d, at, |exps| - 1).Some? ==> ReadLet(d, at, |exps| - 1).value.0 != SeeAll(exps)
  {
    hide ReadLet, See, Packable, IsDefinition;
    if ReadLet(d, at, |exps| - 1).Some? {
      LetParts(d, at, |exps| - 1);
      var i :| 0 <= i < |exps| - 1 && !IsDefinition(exps[i]);
      OnlyDefinitions(exps[i]);
      assert SeeAll(exps)[i] == See(exps[i]);
    }
  }

  // ---------------------------------------------------------------------------------------------
  // Commands

  /** Everything up to the operand is read, and the operand is mistaken. */
  lemma {:induction false} RegexMisread(e: FilterExpression, d: bytes, at: nat)
    requires Sound(e) && !Unambiguous(e) && e.exps.NoParts? && e.cmd == Some(7) && At(d, at, EncExp(e))
    ensures Differs(d, at, See(e))
    decreases e, 1
  {
    hide ReadExp, ReadInt, ReadRaw, At, EncFront, EncInt, EncRawString;
    var flags, pattern, operand := e.flags.value, Text(e.val), e.bin.value;
    var a := EncFront(4, 7);
    var b := a + EncInt(flags);
    var c := b + EncRawString(pattern);
    assert EncExp(e) == c + EncExp(operand);
    AtSplit(d, at, c, EncExp(operand));
    AtSplit(d, at, b, EncRawString(pattern));
    AtSplit(d, at, a, EncInt(flags));
    FrontRead(4, 7, d, at);
    IntRead(flags, d, at + |a|);
    RawRead(pattern, d, at + |b|);
    ExpMisread(operand, d, at + |c|);
  }

  /** A list as the value of an operation that takes one. */
  lemma PlainMisread(e: FilterExpression, d: bytes, at: nat)
    requires Sound(e) && !Unambiguous(e) && e.exps.NoParts? && e.cmd.Some? && e.cmd.value !in {7, 81, 82, 124, 127}
    requires At(d, at, EncExp(e))
    ensures Differs(d, at, See(e))
  {
    hide ReadExp, ReadDatum, At, EncFront, Enc;
    var code, v := e.cmd.value, e.val.value;
    var p := at + |EncFront(2, code)|;
    AtSplit(d, at, EncFront(2, code), Enc(v));
    FrontRead(2, code, d, at);
    ListIsMisread(v, d, p);
    if ReadExp(d, p).Some? {
      OnePart(d, p, ReadExp(d, p).value.0, ReadExp(d, p).value.1);
    } else {
      assert ReadParts(d, p, 1).None? && ReadLet(d, p, 0).None?;
    }
  }

  /** All that is known of a call. */
  lemma SoundCall(e: FilterExpression)
    requires Sound(e) && e.exps.NoParts? && e.cmd == Some(127)
    ensures e.expModule.Some? && e.flags.Some? && e.bin.Some? && Sound(e.bin.value) && !IsDefinition(e.bin.value)
    ensures if e.arguments.Arguments? then
              var args := e.arguments.list;
              && FitsPlain(args) && (forall i :: 0 <= i < |args| ==> PackableArgument(args[i]) && SoundArgument(args[i]))
              && EncExp(e) == EncFront(5, 127) + EncInt(e.expModule.value) + EncInt(e.flags.value) + EncArguments(args)
                              + EncExp(e.bin.value)
              && See(e) == SeenCall(e.expModule.value, e.flags.value, SeeContexts(args), SeePlain(args), See(e.bin.value))
              && (Unambiguous(e) <==> Unambiguous(e.bin.value) && UnambiguousArguments(args))
            else
              && e.val.Some? && Fits(e.val.value) && Hashable(e.val.value)
              && EncExp(e) == EncFront(5, 127) + EncInt(e.expModule.value) + EncInt(e.flags.value) + Enc(e.val.value)
                              + EncExp(e.bin.value)
              && See(e) == SeenPlainCall(e.expModule.value, e.flags.value, ReadBack(e.val.value), See(e.bin.value))
              && (Unambiguous(e) <==> Unambiguous(e.bin.value) && Literal(e.val.value))
  {
    hide EncFront, EncInt, Enc, EncArguments, SeePlain, SeeContexts, NoMarker, Hashable, Fits, Literal;
  }

  predicate UnambiguousArguments(args: seq<Argument>)
    requires forall i :: 0 <= i < |args| ==> PackableArgument(args[i])
  {
    (forall i :: 0 <= i < |args| ==> UnambiguousArgument(args[i])) && NoMarker(SeePlain(args))
  }

  lemma {:induction false} CallMisread(e: FilterExpression, d: bytes, at: nat)
    requires Sound(e) && !Unambiguous(e) && e.exps.NoParts? && e.cmd == Some(127) && At(d, at, EncExp(e))
    ensures Differs(d, at, See(e))
    decreases e, 1
  {
    hide ReadExp, ReadInt, ReadCall, At, EncFront, EncInt, EncArguments, Enc, EncExp, SeePlain, SeeContexts, See, Sound,
         Unambiguous, UnambiguousArguments;
    SoundCall(e);
    var expModule, flags, operand := e.expModule.value, e.flags.value, e.bin.value;
    var middle := if e.arguments.Arguments? then EncArguments(e.arguments.list) else Enc(e.val.value);
    var a := EncFront(5, 127);
    var b := a + EncInt(expModule);
    var c := b + EncInt(flags);
    AtSplit(d, at, c + middle, EncExp(operand));
    AtSplit(d, at, c, middle);
    AtSplit(d, at, b, EncInt(flags));
    AtSplit(d, at, a, EncInt(expModule));
    FrontRead(5, 127, d, at);
    IntRead(expModule, d, at + |a|);
    IntRead(flags, d, at + |b|);
    if !Unambiguous(operand) {
      ExpMisread(operand, d, at + |c + middle|);
    }
    if e.arguments.Arguments? {
      ArgumentsMisread(e.arguments.list, operand, expModule, flags, d, at + |c|);
    } else {
      ValueMisread(e.val.value, operand, expModule, flags, d, at + |c|);
    }
  }

  lemma ValueMisread(v: Value, operand: FilterExpression, expModule: int, flags: int, d: bytes, at: nat)
    requires Fits(v) && Hashable(v) && Packable(operand) && At(d, at, Enc(v))
    requires v.List? || Differs(d, at + |Enc(v)|, See(operand))
    ensures var r := ReadCall(d, at, expModule, flags);
      r.Some? ==> r.value.0 != SeenPlainCall(expModule, flags, ReadBack(v), See(operand))
  {
    hide ReadExp, ReadDatum, ReadArguments, ArrayCount, At, Enc, Hashable, Fits, See, Packable;
    if v.List? {
      ListIsArray(v, d, at);
    } else {
      NoArray(v, d, at);
      DatumRead(v, d, at);
    }
  }

  lemma {:induction false} ArgumentsMisread(args: seq<Argument>, operand: FilterExpression, expModule: int, flags: int,
                                            d: bytes, at: nat)
    requires FitsPlain(args) && Packable(operand)
    requires forall i :: 0 <= i < |args| ==> PackableArgument(args[i]) && SoundArgument(args[i])
    requires !UnambiguousArguments(args) || Differs(d, at + |EncArguments(args)|, See(operand))
    requires At(d, at, EncArguments(args))
    ensures var r := ReadCall(d, at, expModule, flags);
      r.Some? ==> r.value.0 != SeenCall(expModule, flags, SeeContexts(args), SeePlain(args), See(operand))
    decreases args, 4
  {
    hide ReadExp, ReadDatum, ReadArguments, ArrayCount, At, EncContexts, EncPlainArguments, SeePlain, SeeContexts,
         NoMarker, PackableArgument, SoundArgument, UnambiguousArgument, See, Packable;
    AtSplit(d, at, EncContexts(args), EncPlainArguments(args));
    if UnambiguousArguments(args) {
      assert forall i :: 0 <= i < |args| ==> ReadableArgument(args[i]);
      ArgumentsRead(args, d, at);
    } else {
      ContextsLead(args, d, at);
      PlainArgumentsMisread(args, d, at + |EncContexts(args)|);
    }
  }

  /** Whatever follows, the contexts in front of it are read as they are. */
  lemma {:induction false} ContextsLead(args: seq<Argument>, d: bytes, at: nat)
    requires forall i :: 0 <= i < |args| ==> PackableArgument(args[i]) && SoundArgument(args[i])
    requires At(d, at, EncContexts(args))
    ensures var r, rest := ReadArguments(d, at), ReadArguments(d, at + |EncContexts(args)|);
      if rest.None? then r.None?
      else r == Some(((SeeContexts(args) + rest.value.0.0, rest.value.0.1), rest.value.1))
  {
    hide ReadArguments, At, EncContext, SoundArgument, PackableArgument, SeeSteps;
    var rest := ReadArguments(d, at + |EncContexts(args)|);
    if args == [] {
      assert rest.Some? ==> SeeContexts(args) + rest.value.0.0 == rest.value.0.0;
    } else {
      var front := ContextOf(args[0]);
      AtSplit(d, at, front, EncContexts(args[1..]));
      ContextsLead(args[1..], d, at + |front|);
      if args[0].ContextArgument? && args[0].ctx != [] {
        SoundContext(args[0]);
        ContextRead(args[0].ctx, d, at);
        if rest.Some? {
          assert [SeeSteps(args[0].ctx)] + (SeeContexts(args[1..]) + rest.value.0.0) == SeeContexts(args) + rest.value.0.0;
        }
      } else {
        NoContext(args[0]);
        assert [] + SeeContexts(args[1..]) == SeeContexts(args[1..]);
      }
    }
  }

  lemma SoundContext(arg: Argument)
    requires SoundArgument(arg) && arg.ContextArgument?
    ensures FitsContext(arg.ctx) && forall i :: 0 <= i < |arg.ctx| ==> Hashable(arg.ctx[i].value)
  {
    hide FitsContext, Hashable;
  }

  /** Either the arguments are taken for a context, or one of them is mistaken. */
  lemma {:induction false} PlainArgumentsMisread(args: seq<Argument>, d: bytes, at: nat)
    requires FitsPlain(args) && forall i :: 0 <= i < |args| ==> PackableArgument(args[i]) && SoundArgument(args[i])
    requires !UnambiguousArguments(args) && At(d, at, EncPlainArguments(args))
    ensures var r := ReadArguments(d, at);
      r.Some? ==> r.value.0.0 != [] || r.value.0.1 != SeePlain(args)
    decreases args, 2
  {
    hide ArrayCount, ReadInt, ReadContext, ReadParts, At, ArrayHeader, Concat, PlainParts, SeePlain, SoundArgument,
         PackableArgument, UnambiguousArgument;
    var n, body := PlainCount(args), Concat(PlainParts(args));
    var first := at + |ArrayHeader(n)|;
    PlainCountFits(args);
    AtSplit(d, at, ArrayHeader(n), body);
    CountRead(n, d, at);
    if forall i :: 0 <= i < |args| ==> UnambiguousArgument(args[i]) {
      assert forall i :: 0 <= i < |args| ==> ReadableArgument(args[i]);
      PlainPartsRead(args, d, first);
      IsTheMarker(d, first);
    } else {
      PlainPartsMisread(args, d, first);
    }
  }

  /** Three parts of which the first is the number 255 are taken for a context. */
  lemma IsTheMarker(d: bytes, at: nat)
    requires ReadParts(d, at, 3).Some? && |ReadParts(d, at, 3).value.0| == 3
    requires ReadParts(d, at, 3).value.0[0] == SeenValue(DAtom(Int(255)))
    ensures ReadInt(d, at).Some? && ReadInt(d, at).value.0 == 255
  {
    hide ArrayCount, ReadOperation, DecValue;
    assert ReadParts(d, at, 3).value.0[0] == ReadExp(d, at).value.0;
    if ArrayCount(d, at).Some? {
      ArrayIsNoValue(d, at);
    }
  }

  lemma {:induction false} PlainPartsMisread(args: seq<Argument>, d: bytes, at: nat)
    requires forall i :: 0 <= i < |args| ==> PackableArgument(args[i]) && SoundArgument(args[i])
    requires exists i :: 0 <= i < |args| && !UnambiguousArgument(args[i])
    requires At(d, at, Concat(PlainParts(args)))
    ensures ReadParts(d, at, PlainCount(args)).Some? ==> ReadParts(d, at, PlainCount(args)).value.0 != SeePlain(args)
    decreases args, 1
  {
    hide ReadExp, At, EncPlainArgument, SeeArgument, SoundArgument, PackableArgument, UnambiguousArgument;
    var parts, arg, rest := PlainParts(args), args[0], args[1..];
    assert args decreases to args[0];
    assert parts[1..] == PlainParts(rest);
    AtSplit(d, at, parts[0], Concat(parts[1..]));
    if UnambiguousArgument(arg) {
      var i :| 0 <= i < |args| && !UnambiguousArgument(args[i]);
      assert rest[i - 1] == args[i];
      PlainPartsMisread(rest, d, at + |parts[0]|);
      if arg.ContextArgument? {
        NothingPlain(arg);
        assert [] + SeePlain(rest) == SeePlain(rest);
      } else {
        assert ReadableArgument(arg);
        ArgumentRead(arg, d, at);
        if ReadParts(d, at, PlainCount(args)).Some? {
          assert ReadParts(d, at, PlainCount(args)).value.0[1..]
              == ReadParts(d, at + |parts[0]|, PlainCount(rest)).value.0;
          assert SeePlain(args)[1..] == SeePlain(rest);
        }
      }
    } else {
      ContextsAreClear(arg);
      ArgumentMisread(arg, d, at);
      if ReadParts(d, at, PlainCount(args)).Some? {
        assert ReadParts(d, at, PlainCount(args)).value.0[0] == ReadExp(d, at).value.0;
        assert SeePlain(args)[0] == SeeArgument(arg);
      }
    }
  }

  lemma ContextsAreClear(arg: Argument)
    requires PackableArgument(arg)
    ensures arg.ContextArgument? ==> UnambiguousArgument(arg)
  {
  }

  lemma {:induction false} ArgumentMisread(arg: Argument, d: bytes, at: nat)
    requires PackableArgument(arg) && SoundArgument(arg) && !arg.ContextArgument? && !UnambiguousArgument(arg)
    requires At(d, at, EncPlainArgument(arg))
    ensures Differs(d, at, SeeArgument(arg))
    decreases arg, 0
  {
    hide ReadExp, At, Enc, EncExp, See, Fits, WellFormed, Unambiguous, IsDefinition, Hashes, Hashable;
    match arg
    case ValueArgument(v) => ListIsMisread(v, d, at);
    case ExpArgument(exp) => ExpMisread(exp, d, at);
  }

  lemma {:induction false} ExpMisread(e: FilterExpression, d: bytes, at: nat)
    requires Sound(e) && !Unambiguous(e) && !IsDefinition(e) && At(d, at, EncExp(e))
    ensures Differs(d, at, See(e))
    decreases e, 3
  {
    hide ReadExp, At, EncExp, See, Sound, Unambiguous;
    if e.exps.Parts? {
      CompoundMisread(e, d, at);
    } else if e.cmd.Some? {
      if e.cmd.value in {81, 82, 124} {
        OwnNames(e);
      } else if e.cmd.value == 7 {
        RegexMisread(e, d, at);
      } else if e.cmd.value == 127 {
        CallMisread(e, d, at);
      } else {
        PlainMisread(e, d, at);
      }
    } else {
      AmbiguousLiteral(e);
      ListIsMisread(e.val.value, d, at);
    }
  }

  lemma OwnNames(e: FilterExpression)
    requires Sound(e) && e.exps.NoParts? && e.cmd.Some? && e.cmd.value in {81, 82, 124}
    ensures Unambiguous(e)
  {
  }

  lemma AmbiguousLiteral(e: FilterExpression)
    requires Sound(e) && !Unambiguous(e) && e.exps.NoParts? && e.cmd.None?
    ensures EncExp(e) == Enc(e.val.value) && e.val.value.List? && Fits(e.val.value)
    ensures See(e) == SeenValue(ReadBack(e.val.value))
  {
    hide Enc, Fits;
  }

  /**
   Main result: between any prefix and any suffix, a reader of the format sees a packed expression as it is, its codes,
   types, flags, names, values, contexts, arguments and operands each in its place, and ends on its last byte, exactly
   if the format can tell the expression apart.
   */
  lemma ExpressionIsSeen(e: FilterExpression, prefix: bytes, suffix: bytes)
    requires WellFormed(e) && Hashes(e) && !IsDefinition(e)
    ensures ReadExp(prefix + EncExp(e) + suffix, |prefix|) == Some((See(e), |prefix| + |EncExp(e)|)) <==> Unambiguous(e)
  {
    hide ReadExp, EncExp, See, WellFormed, Hashes, Unambiguous, IsDefinition;
    var d := prefix + EncExp(e) + suffix;
    assert d[|prefix|..|prefix| + |EncExp(e)|] == EncExp(e);
    if Unambiguous(e) {
      ExpRead(e, d, |prefix|);
    } else {
      ExpMisread(e, d, |prefix|);
    }
  }
}
