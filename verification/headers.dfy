/**
 What the attribute bits of a header tell: the policy can be read off them, and those of an operate command
 say which kinds of operations it holds (src/commands/buffer.rs).
 */
module Headers {
  import opened Bytes
  import opened Particles
  import opened Messages
  import opened Commands

  predicate HasBit(attr: byte, bit: byte)
  {
    (attr as bv8) & (bit as bv8) != 0
  }

  /** A bit of an attribute is a binary digit of it. */
  lemma BitIsDigit(attr: byte, bit: byte)
    requires bit in {1, 2, 4, 8, 16, 32, 64, 128}
    ensures HasBit(attr, bit) <==> (attr / bit) % 2 == 1
  {
    match bit
    case 1 =>
    case 2 =>
    case 4 =>
    case 8 =>
    case 16 =>
    case 32 =>
    case 64 =>
    case _ =>
  }

  lemma OrIsBitwise(a: byte, b: byte)
    ensures BitOr(a, b) as bv8 == (a as bv8) | (b as bv8)
  {
    BackToBits((a as bv8) | (b as bv8));
  }

  lemma BackToBits(x: bv8)
    ensures (x as int) as bv8 == x
  {
  }

  lemma OrDistributes(x: bv8, y: bv8, z: bv8)
    ensures (x | y) & z != 0 <==> x & z != 0 || y & z != 0
  {
  }

  /** The test for a bit, in terms of bits alone. */
  lemma HasBitIs(attr: byte, bit: byte, x: bv8, y: bv8)
    requires attr as bv8 == x && bit as bv8 == y
    ensures HasBit(attr, bit) <==> x & y != 0
  {
  }

  lemma OrHasBit(a: byte, b: byte, bit: byte)
    ensures HasBit(BitOr(a, b), bit) <==> HasBit(a, bit) || HasBit(b, bit)
  {
    hide BitOr, HasBit;
    var x, y, z := a as bv8, b as bv8, bit as bv8;
    OrIsBitwise(a, b);
    HasBitIs(a, bit, x, z);
    HasBitIs(b, bit, y, z);
    HasBitIs(BitOr(a, b), bit, x | y, z);
    OrDistributes(x, y, z);
  }

  lemma FlagHasBit(on: bool, bit: byte, attr: byte, asked: byte)
    ensures HasBit(Flag(on, bit, attr), asked) <==> HasBit(attr, asked) || (on && HasBit(bit, asked))
  {
    hide HasBit, BitOr;
    OrHasBit(attr, bit, asked);
  }

  function Number(x: bv8): byte
  {
    x as int
  }

  lemma OrOfNumbers(x: bv8, y: bv8)
    ensures BitOr(Number(x), Number(y)) == Number(x | y)
  {
    BackToBits(x);
    BackToBits(y);
  }

  /** A bit that is not yet set is added. */
  lemma AddedBit(x: bv8, y: bv8)
    requires x & y == 0 && (y == 2 || y == 4 || y == 8 || y == 16 || y == 32 || y == 64)
    ensures Number(x | y) == Number(x) + Number(y)
  {
    if y == 2 {
      assert Number(x | 2) == Number(x) + 2;
    } else if y == 4 {
      assert Number(x | 4) == Number(x) + 4;
    } else if y == 8 {
      assert Number(x | 8) == Number(x) + 8;
    } else if y == 16 {
      assert Number(x | 16) == Number(x) + 16;
    } else if y == 32 {
      assert Number(x | 32) == Number(x) + 32;
    } else {
      assert Number(x | 64) == Number(x) + 64;
    }
  }

  /** Setting a flag in an attribute that does not have it adds its bit. */
  lemma FlagAdds(on: bool, x: bv8, y: bv8)
    requires x & y == 0 && (y == 2 || y == 4 || y == 8 || y == 16 || y == 32 || y == 64)
    ensures Flag(on, Number(y), Number(x)) == Number(x) + (if on then Number(y) else 0)
    ensures Flag(on, Number(y), Number(x)) == Number(if on then x | y else x)
  {
    hide BitOr, Number;
    if on {
      OrOfNumbers(x, y);
      AddedBit(x, y);
    }
  }

  lemma Places()
    ensures Number(0) == 0 && Number(1) == 1 && Number(2) == 2 && Number(3) == 3 && Number(4) == 4 && Number(8) == 8
    ensures Number(16) == 16 && Number(32) == 32 && Number(33) == 33 && Number(35) == 35 && Number(64) == 64
    ensures Number(128) == 128 && Number(129) == 129
  {
  }

  const WRITE_FLAGS: seq<byte> := [INFO2_CREATE_ONLY, INFO2_GENERATION, INFO2_GENERATION_GT, INFO2_DURABLE_DELETE]

  /** The flags of a write policy are different bits. */
  lemma FlagsAreApart(i: nat, j: nat)
    requires i < 4 && j < 4
    ensures HasBit(WRITE_FLAGS[i], WRITE_FLAGS[j]) <==> i == j
  {
    assert WRITE_FLAGS[i] == if i == 0 then 32 else if i == 1 then 4 else if i == 2 then 8 else 16;
    assert WRITE_FLAGS[j] == if j == 0 then 32 else if j == 1 then 4 else if j == 2 then 8 else 16;
    assert HasBit(32, 32) && HasBit(4, 4) && HasBit(8, 8) && HasBit(16, 16);
    assert !HasBit(32, 4) && !HasBit(32, 8) && !HasBit(32, 16) && !HasBit(4, 32) && !HasBit(4, 8) && !HasBit(4, 16);
    assert !HasBit(8, 32) && !HasBit(8, 4) && !HasBit(8, 16) && !HasBit(16, 32) && !HasBit(16, 4) && !HasBit(16, 8);
  }

  /** None of the bits that the policy decides is among those the command decides. */
  predicate LeavesPolicyOpen(readAttr: byte, writeAttr: byte)
  {
    !HasBit(readAttr, INFO1_CONSISTENCY_ALL) && forall i :: 0 <= i < 4 ==> !HasBit(writeAttr, WRITE_FLAGS[i])
  }

  /** Every choice of a write policy can be read off the header. */
  predicate TellsPolicy(h: Header, p: WritePolicy)
  {
    && (HasBit(h.writeAttr, 32) <==> p.recordExists.CreateOnly?)
    && (HasBit(h.writeAttr, 4) <==> p.generationPolicy.ExpectGenEqual?)
    && (HasBit(h.writeAttr, 8) <==> p.generationPolicy.ExpectGenGreater?)
    && (HasBit(h.writeAttr, 16) <==> p.durableDelete)
    && (HasBit(h.readAttr, 64) <==> p.base.consistencyAll)
    && (HasBit(h.infoAttr, 2) <==> p.commitMaster)
    && (HasBit(h.infoAttr, 8) <==> p.recordExists.UpdateOnly?)
    && (HasBit(h.infoAttr, 16) <==> p.recordExists.Replace?)
    && (HasBit(h.infoAttr, 32) <==> p.recordExists.ReplaceOnly?)
    && h.generation == (if p.generationPolicy.AnyGeneration? then 0 else p.generation)
    && h.expiration == p.expiration
  }

  lemma PolicyIsTold(p: WritePolicy, readAttr: byte, writeAttr: byte)
    requires LeavesPolicyOpen(readAttr, writeAttr)
    ensures TellsPolicy(PolicyHeader(p, readAttr, writeAttr), p)
  {
    hide HasBit, BitOr, Flag, LeavesPolicyOpen;
    InfoIsTold(p, readAttr, writeAttr);
    forall j | 0 <= j < 4 ensures HasBit(PolicyHeader(p, readAttr, writeAttr).writeAttr, WRITE_FLAGS[j]) <==>
      [p.recordExists.CreateOnly?, p.generationPolicy.ExpectGenEqual?, p.generationPolicy.ExpectGenGreater?,
       p.durableDelete][j]
    {
      WriteFlagIsTold(p, readAttr, writeAttr, j);
    }
    assert WRITE_FLAGS[0] == INFO2_CREATE_ONLY && WRITE_FLAGS[1] == INFO2_GENERATION;
    assert WRITE_FLAGS[2] == INFO2_GENERATION_GT && WRITE_FLAGS[3] == INFO2_DURABLE_DELETE;
    ConsistencyIsTold(p.base.consistencyAll, readAttr, writeAttr);
  }

  lemma InfoIsTold(p: WritePolicy, readAttr: byte, writeAttr: byte)
    ensures var info := PolicyHeader(p, readAttr, writeAttr).infoAttr;
      && (HasBit(info, INFO3_COMMIT_MASTER) <==> p.commitMaster)
      && (HasBit(info, INFO3_UPDATE_ONLY) <==> p.recordExists.UpdateOnly?)
      && (HasBit(info, INFO3_CREATE_OR_REPLACE) <==> p.recordExists.Replace?)
      && (HasBit(info, INFO3_REPLACE_ONLY) <==> p.recordExists.ReplaceOnly?)
  {
    InfoBits();
    var info := match p.recordExists case UpdateOnly => 8 case Replace => 16 case ReplaceOnly => 32 case _ => 0;
    hide HasBit, BitOr;
    FlagHasBit(p.commitMaster, INFO3_COMMIT_MASTER, info, 2);
    FlagHasBit(p.commitMaster, INFO3_COMMIT_MASTER, info, 8);
    FlagHasBit(p.commitMaster, INFO3_COMMIT_MASTER, info, 16);
    FlagHasBit(p.commitMaster, INFO3_COMMIT_MASTER, info, 32);
  }

  lemma InfoBits()
    ensures HasBit(2, 2) && HasBit(8, 8) && HasBit(16, 16) && HasBit(32, 32)
    ensures !HasBit(0, 2) && !HasBit(0, 8) && !HasBit(0, 16) && !HasBit(0, 32)
    ensures !HasBit(2, 8) && !HasBit(2, 16) && !HasBit(2, 32) && !HasBit(8, 2) && !HasBit(8, 16) && !HasBit(8, 32)
    ensures !HasBit(16, 2) && !HasBit(16, 8) && !HasBit(16, 32) && !HasBit(32, 2) && !HasBit(32, 8) && !HasBit(32, 16)
  {
  }

  lemma ConsistencyIsTold(consistencyAll: bool, readAttr: byte, writeAttr: byte)
    requires LeavesPolicyOpen(readAttr, writeAttr)
    ensures HasBit(Flag(consistencyAll, INFO1_CONSISTENCY_ALL, readAttr), INFO1_CONSISTENCY_ALL) <==> consistencyAll
  {
    FlagHasBit(consistencyAll, INFO1_CONSISTENCY_ALL, readAttr, INFO1_CONSISTENCY_ALL);
    assert HasBit(INFO1_CONSISTENCY_ALL, INFO1_CONSISTENCY_ALL);
  }

  lemma WriteFlagIsTold(p: WritePolicy, readAttr: byte, writeAttr: byte, j: nat)
    requires LeavesPolicyOpen(readAttr, writeAttr) && j < 4
    ensures HasBit(PolicyHeader(p, readAttr, writeAttr).writeAttr, WRITE_FLAGS[j]) <==>
      [p.recordExists.CreateOnly?, p.generationPolicy.ExpectGenEqual?, p.generationPolicy.ExpectGenGreater?,
       p.durableDelete][j]
  {
    hide HasBit, BitOr, Flag;
    var bit := WRITE_FLAGS[j];
    var a := Flag(p.recordExists.CreateOnly?, INFO2_CREATE_ONLY, writeAttr);
    var b := Flag(p.generationPolicy.ExpectGenEqual?, INFO2_GENERATION, a);
    var c := Flag(p.generationPolicy.ExpectGenGreater?, INFO2_GENERATION_GT, b);
    FlagHasBit(p.recordExists.CreateOnly?, INFO2_CREATE_ONLY, writeAttr, bit);
    FlagHasBit(p.generationPolicy.ExpectGenEqual?, INFO2_GENERATION, a, bit);
    FlagHasBit(p.generationPolicy.ExpectGenGreater?, INFO2_GENERATION_GT, b, bit);
    FlagHasBit(p.durableDelete, INFO2_DURABLE_DELETE, c, bit);
    FlagsAreApart(0, j);
    FlagsAreApart(1, j);
    FlagsAreApart(2, j);
    FlagsAreApart(3, j);
  }

  /** The attributes of a header with a policy, as sums: each choice adds its own bit to those of the command. */
  lemma PolicySums(p: WritePolicy, r: bv8, w: bv8)
    requires r & 64 == 0 && w & 60 == 0
    ensures var h := PolicyHeader(p, Number(r), Number(w));
      && h.readAttr == Number(r) + (if p.base.consistencyAll then 64 else 0)
      && h.writeAttr == Number(w)
           + (if p.recordExists.CreateOnly? then 32 else 0)
           + (if p.generationPolicy.ExpectGenEqual? then 4 else 0)
           + (if p.generationPolicy.ExpectGenGreater? then 8 else 0)
           + (if p.durableDelete then 16 else 0)
      && h.infoAttr == (if p.commitMaster then 2 else 0)
           + (match p.recordExists case UpdateOnly => 8 case Replace => 16 case ReplaceOnly => 32 case _ => 0)
  {
    hide Flag, Number;
    Places();
    WriteSum(p, w);
    FlagAdds(p.base.consistencyAll, r, 64);
    FlagAdds(p.commitMaster,
             match p.recordExists case UpdateOnly => 8 case Replace => 16 case ReplaceOnly => 32 case _ => 0, 2);
  }

  lemma WriteSum(p: WritePolicy, w: bv8)
    requires w & 60 == 0
    ensures PolicyHeader(p, 0, Number(w)).writeAttr == Number(w)
         + (if p.recordExists.CreateOnly? then 32 else 0)
         + (if p.generationPolicy.ExpectGenEqual? then 4 else 0)
         + (if p.generationPolicy.ExpectGenGreater? then 8 else 0)
         + (if p.durableDelete then 16 else 0)
  {
    hide Flag, Number;
    var a := if p.recordExists.CreateOnly? then w | 32 else w;
    var b := if p.generationPolicy.ExpectGenEqual? then a | 4 else a;
    var c := if p.generationPolicy.ExpectGenGreater? then b | 8 else b;
    Places();
    FlagAdds(p.recordExists.CreateOnly?, w, 32);
    FlagAdds(p.generationPolicy.ExpectGenEqual?, a, 4);
    FlagAdds(p.generationPolicy.ExpectGenGreater?, b, 8);
    FlagAdds(p.durableDelete, c, 16);
  }

  /** The attributes of a header without a policy. */
  lemma PlainSums(consistencyAll: bool, writeAttr: byte)
    ensures PlainHeader(consistencyAll, 0, writeAttr)
         == Header(if consistencyAll then 64 else 0, writeAttr, 0, 0, 0)
    ensures PlainHeader(consistencyAll, INFO1_READ, writeAttr)
         == Header(1 + (if consistencyAll then 64 else 0), writeAttr, 0, 0, 0)
    ensures PlainHeader(consistencyAll, BitOr(INFO1_READ, INFO1_NOBINDATA), writeAttr)
         == Header(1 + 32 + (if consistencyAll then 64 else 0), writeAttr, 0, 0, 0)
    ensures PlainHeader(consistencyAll, BitOr(INFO1_READ, INFO1_GET_ALL), writeAttr)
         == Header(1 + 2 + (if consistencyAll then 64 else 0), writeAttr, 0, 0, 0)
    ensures PlainHeader(consistencyAll, BitOr(INFO1_READ, INFO1_BATCH), writeAttr)
         == Header(1 + 8 + (if consistencyAll then 64 else 0), writeAttr, 0, 0, 0)
  {
    assert BitOr(1, 32) == 33 && BitOr(1, 2) == 3 && BitOr(1, 8) == 9;
    assert BitOr(0, 64) == 64 && BitOr(1, 64) == 65 && BitOr(33, 64) == 97 && BitOr(3, 64) == 67 && BitOr(9, 64) == 73;
  }

  // ---------------------------------------------------------------------------------------------
  // Operate

  predicate ReadsOnly(o: Operation)
  {
    o.op in {1, 3, 7, 12, 15}
  }

  predicate RespondsEach(p: WritePolicy, o: Operation)
  {
    p.respondPerEachOp || o.data.CdtMapOp? || o.data.CdtBitOp? || o.data.HllOp? || o.data.ExpData?
  }

  predicate SomeWrites(os: seq<Operation>)
  {
    exists i :: 0 <= i < |os| && !ReadsOnly(os[i])
  }

  predicate SomeRespond(p: WritePolicy, os: seq<Operation>)
  {
    exists i :: 0 <= i < |os| && RespondsEach(p, os[i])
  }

  predicate SomeRead(os: seq<Operation>)
  {
    exists i :: 0 <= i < |os| && ReadsOnly(os[i])
  }

  /** The write attributes that an operate command can have. */
  lemma WriteBits()
    ensures BitOr(0, INFO2_WRITE) == 1 && BitOr(1, INFO2_WRITE) == 1
    ensures BitOr(128, INFO2_WRITE) == 129 && BitOr(129, INFO2_WRITE) == 129
    ensures BitOr(0, INFO2_RESPOND_ALL_OPS) == 128 && BitOr(1, INFO2_RESPOND_ALL_OPS) == 129
    ensures BitOr(128, INFO2_RESPOND_ALL_OPS) == 128 && BitOr(129, INFO2_RESPOND_ALL_OPS) == 129
  {
  }

  /**
   The write attribute of an operate command is 1 if some operation writes, and 128 more if some operation asks
   for a response of its own.
   */
  lemma {:induction false} WriteAttrTells(p: WritePolicy, os: seq<Operation>)
    ensures OperateAttrs(p, os).1 == (if SomeWrites(os) then 1 else 0) + (if SomeRespond(p, os) then 128 else 0)
  {
    hide BitOr;
    if os != [] {
      var front, o := os[..|os| - 1], os[|os| - 1];
      WriteAttrTells(p, front);
      WriteBits();
      LastDecides(p, os);
    }
  }

  lemma LastDecides(p: WritePolicy, os: seq<Operation>)
    requires os != []
    ensures SomeWrites(os) <==> SomeWrites(os[..|os| - 1]) || !ReadsOnly(os[|os| - 1])
    ensures SomeRespond(p, os) <==> SomeRespond(p, os[..|os| - 1]) || RespondsEach(p, os[|os| - 1])
    ensures SomeRead(os) <==> SomeRead(os[..|os| - 1]) || ReadsOnly(os[|os| - 1])
  {
    var n := |os| - 1;
    assert forall i :: 0 <= i < n ==> os[..n][i] == os[i];
    if SomeWrites(os[..n]) {
      var i :| 0 <= i < n && !ReadsOnly(os[..n][i]);
      assert !ReadsOnly(os[i]);
    }
    if SomeRespond(p, os[..n]) {
      var i :| 0 <= i < n && RespondsEach(p, os[..n][i]);
      assert RespondsEach(p, os[i]);
    }
    if SomeRead(os[..n]) {
      var i :| 0 <= i < n && ReadsOnly(os[..n][i]);
      assert ReadsOnly(os[i]);
    }
  }

  /** Its read attribute has the read bit exactly if some operation reads. */
  lemma {:induction false} ReadAttrTells(p: WritePolicy, os: seq<Operation>)
    ensures HasBit(OperateAttrs(p, os).0, INFO1_READ) <==> SomeRead(os)
  {
    hide BitOr, HasBit;
    if os == [] {
      NoBits(INFO1_READ);
    } else {
      var before := OperateAttrs(p, os[..|os| - 1]).0;
      ReadAttrTells(p, os[..|os| - 1]);
      LastDecides(p, os);
      OrHasBit(before, INFO1_READ, INFO1_READ);
      OrHasBit(before, BitOr(INFO1_READ, INFO1_NOBINDATA), INFO1_READ);
      OrHasBit(before, BitOr(INFO1_READ, INFO1_GET_ALL), INFO1_READ);
      OrHasBit(INFO1_READ, INFO1_NOBINDATA, INFO1_READ);
      OrHasBit(INFO1_READ, INFO1_GET_ALL, INFO1_READ);
      OwnBit(INFO1_READ);
    }
  }

  predicate SomeReadAll(os: seq<Operation>)
  {
    exists i :: 0 <= i < |os| && os[i].op == 1 && os[i].bin.EveryBin?
  }

  predicate SomeReadNone(os: seq<Operation>)
  {
    exists i :: 0 <= i < |os| && os[i].op == 1 && os[i].bin.NoBin?
  }

  /** The read attributes that an operate command can have. */
  lemma ReadSteps()
    ensures forall v: byte :: v in {1, 3, 33, 35} ==> BitOr(v, 1) == v
    ensures BitOr(0, 1) == 1 && BitOr(1, 2) == 3 && BitOr(1, 32) == 33
    ensures BitOr(0, 3) == 3 && BitOr(1, 3) == 3 && BitOr(3, 3) == 3 && BitOr(33, 3) == 35 && BitOr(35, 3) == 35
    ensures BitOr(0, 33) == 33 && BitOr(1, 33) == 33 && BitOr(3, 33) == 35 && BitOr(33, 33) == 33 && BitOr(35, 33) == 35
  {
  }

  lemma LastReadDecides(os: seq<Operation>)
    requires os != []
    ensures var o := os[|os| - 1];
      && (SomeReadAll(os) <==> SomeReadAll(os[..|os| - 1]) || (o.op == 1 && o.bin.EveryBin?))
      && (SomeReadNone(os) <==> SomeReadNone(os[..|os| - 1]) || (o.op == 1 && o.bin.NoBin?))
  {
    var n := |os| - 1;
    assert forall i :: 0 <= i < n ==> os[..n][i] == os[i];
    if SomeReadAll(os[..n]) {
      var i :| 0 <= i < n && os[..n][i].op == 1 && os[..n][i].bin.EveryBin?;
      assert os[i].op == 1;
    }
    if SomeReadNone(os[..n]) {
      var i :| 0 <= i < n && os[..n][i].op == 1 && os[..n][i].bin.NoBin?;
      assert os[i].op == 1;
    }
  }

  /**
   The read attribute of an operate command: 1 if some operation reads, 2 more if one reads every bin, and 32 more
   if one reads no bin.
   */
  lemma {:induction false} ReadAttrSum(p: WritePolicy, os: seq<Operation>)
    ensures OperateAttrs(p, os).0 == (if SomeRead(os) then 1 else 0) + (if SomeReadAll(os) then 2 else 0)
                                     + (if SomeReadNone(os) then 32 else 0)
    ensures SomeReadAll(os) || SomeReadNone(os) ==> SomeRead(os)
  {
    hide BitOr;
    if os != [] {
      ReadAttrSum(p, os[..|os| - 1]);
      ReadSteps();
      LastDecides(p, os);
      LastReadDecides(os);
    }
  }

  lemma NoBits(bit: byte)
    ensures !HasBit(0, bit)
  {
  }

  lemma OwnBit(bit: byte)
    requires bit != 0
    ensures HasBit(bit, bit)
  {
  }

  /** The bits of an operate command leave the bit of the consistency level alone. */
  lemma {:induction false} ReadAttrStaysOpen(p: WritePolicy, os: seq<Operation>)
    ensures !HasBit(OperateAttrs(p, os).0, INFO1_CONSISTENCY_ALL)
  {
    hide BitOr, HasBit;
    NoBits(INFO1_CONSISTENCY_ALL);
    if os != [] {
      var before := OperateAttrs(p, os[..|os| - 1]).0;
      ReadAttrStaysOpen(p, os[..|os| - 1]);
      ReadBitsApart();
      OrHasBit(before, INFO1_READ, INFO1_CONSISTENCY_ALL);
      OrHasBit(before, BitOr(INFO1_READ, INFO1_NOBINDATA), INFO1_CONSISTENCY_ALL);
      OrHasBit(before, BitOr(INFO1_READ, INFO1_GET_ALL), INFO1_CONSISTENCY_ALL);
      OrHasBit(INFO1_READ, INFO1_NOBINDATA, INFO1_CONSISTENCY_ALL);
      OrHasBit(INFO1_READ, INFO1_GET_ALL, INFO1_CONSISTENCY_ALL);
    }
  }

  lemma ReadBitsApart()
    ensures !HasBit(INFO1_READ, INFO1_CONSISTENCY_ALL) && !HasBit(INFO1_NOBINDATA, INFO1_CONSISTENCY_ALL)
    ensures !HasBit(INFO1_GET_ALL, INFO1_CONSISTENCY_ALL)
  {
  }

  lemma WriteBitsApart(writeAttr: byte)
    requires writeAttr in {0, 1, 3, 128, 129}
    ensures forall i :: 0 <= i < 4 ==> !HasBit(writeAttr, WRITE_FLAGS[i])
  {
    forall i | 0 <= i < 4 ensures !HasBit(writeAttr, WRITE_FLAGS[i]) {
      assert WRITE_FLAGS[i] == if i == 0 then 32 else if i == 1 then 4 else if i == 2 then 8 else 16;
    }
  }

  /** Each command that is sent with a write policy tells it. */
  lemma CommandsTellPolicy(p: WritePolicy, op: byte, key: Key, bins: seq<Bin>)
    requires ValidKey(key) && ValidFilter(p.filter)
    requires forall i :: 0 <= i < |bins| ==> Storable(bins[i].value)
    ensures TellsPolicy(WriteCommand(p, op, key, bins).header, p)
    ensures TellsPolicy(DeleteCommand(p, key).header, p)
    ensures TellsPolicy(TouchCommand(p, key).header, p)
  {
    hide TellsPolicy, HasBit, PolicyHeader, RecordFields, Storable;
    NoBits(INFO1_CONSISTENCY_ALL);
    assert BitOr(INFO2_WRITE, INFO2_DELETE) == 3;
    WriteBitsApart(INFO2_WRITE);
    WriteBitsApart(BitOr(INFO2_WRITE, INFO2_DELETE));
    PolicyIsTold(p, 0, INFO2_WRITE);
    PolicyIsTold(p, 0, BitOr(INFO2_WRITE, INFO2_DELETE));
  }

  /**
   An operate command is sent like a write, with the whole write policy in its header and with the user key,
   exactly if an operation writes or asks for a response of its own; so a read with a map operation is.
   Otherwise the header holds nothing but the read bits and the consistency level.
   */
  lemma SentLikeWriteExactly(p: WritePolicy, key: Key, os: seq<Operation>)
    requires ValidKey(key) && ValidFilter(p.filter) && forall i :: 0 <= i < |os| ==> ValidOperation(os[i])
    ensures var c, attrs := OperateCommand(p, key, os), OperateAttrs(p, os);
      && (SomeWrites(os) || SomeRespond(p, os) ==>
            && c.fields == RecordFields(key, p.sendKey, p.filter)
            && c.header == PolicyHeader(p, attrs.0, attrs.1) && TellsPolicy(c.header, p))
      && (!SomeWrites(os) && !SomeRespond(p, os) ==>
            && c.fields == RecordFields(key, false, p.filter)
            && c.header == PlainHeader(p.base.consistencyAll, attrs.0, 0)
            && (HasBit(c.header.readAttr, INFO1_CONSISTENCY_ALL) <==> p.base.consistencyAll))
  {
    hide Flag, RecordFields, OperationOps, ValidOperation, TellsPolicy, HasBit, OperateAttrs, PolicyHeader;
    var attrs := OperateAttrs(p, os);
    WriteAttrTells(p, os);
    ReadAttrStaysOpen(p, os);
    WriteBitsApart(attrs.1);
    PolicyIsTold(p, attrs.0, attrs.1);
    ConsistencyIsTold(p.base.consistencyAll, attrs.0, attrs.1);
  }
}
