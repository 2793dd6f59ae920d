/**
 From the bins of a write to the bytes that are sent and back: a reader of the message that decodes each
 operation by the client's own rules finds the names and the meanings of the bins.
 */
module Stored {
  import opened Options
  import opened Bytes
  import opened Values
  import opened CommandBuffer
  import opened Encoding
  import opened Decoding
  import opened Particles
  import opened Messages
  import opened Commands
  import opened Builders
  import opened ScanBuilders

  /** What an operation with a value says: its type, the bin, and the value that is read from it. */
  datatype StoredBin = StoredBin(op: byte, name: bytes, value: Parse<Datum>)

  function ReadBin(op: bytes): Option<StoredBin>
  {
    if |op| < 4 || 4 + op[3] > |op| then None
    else
      var length: int := op[3];
      var n := 4 + length;
      Some(StoredBin(op[0], op[4..n], DecParticle(op, n, op[1], |op| - n)))
  }

  /** A bin is found again exactly if its name fits the length byte and its value is normal. */
  lemma BinIsReadBack(bin: Bin, op: byte)
    requires Storable(bin.value) && Valid(bin.value) && Fits(bin.value)
    ensures var b := BinOp(bin, op);
      ReadBin(b) == Some(StoredBin(op, bin.name, Done(Meaning(bin.value), |b|)))
      <==> |bin.name| < 0x100 && NormalParticle(bin.value)
  {
    hide DecParticle, ParticleBytes, ParticleType, Meaning, NormalParticle, Storable, Valid, Fits;
    var v, name := bin.value, bin.name;
    var b, codes := BinOp(bin, op), [op, ParticleType(v), 0, |name| % 0x100];
    var front := codes + name;
    assert b == front + ParticleBytes(v);
    assert b[..4] == codes;
    if |name| < 0x100 {
      assert b[4..4 + |name|] == name;
      NormalParticleRoundTrip(v, front, []);
      assert front + ParticleBytes(v) + [] == b;
    }
  }

  /** The same for all bins of a write that was sent. */
  lemma WriteIsReadBack(buf: Buffer, r: Outcome<()>, p: WritePolicy, op: byte, key: Key, bins: seq<Bin>, i: nat)
    requires ValidKey(key) && ValidFilter(p.filter)
    requires forall k :: 0 <= k < |bins| ==> Storable(bins[k].value)
    requires Sent(buf, r, WriteCommand(p, op, key, bins)) && r.Ok? && |bins| < 0x1_0000
    requires i < |bins| && Valid(bins[i].value) && Fits(bins[i].value)
    ensures ReadCommand(buf.data) == Some(WriteCommand(p, op, key, bins))
    ensures var found := ReadCommand(buf.data).value.ops;
      && |found| == |bins|
      && (ReadBin(found[i]) == Some(StoredBin(op, bins[i].name, Done(Meaning(bins[i].value), |found[i]|)))
          <==> |bins[i].name| < 0x100 && NormalParticle(bins[i].value))
  {
    hide BinOp, ReadBin, ReadCommand, Meaning, NormalParticle, Storable, Valid, Fits, PolicyHeader, CommandBytes,
         MsgSize;
    var c := WriteCommand(p, op, key, bins);
    FewRecordFields(key, p.sendKey, p);
    SentIsFramed(buf, r, c);
    BinIsReadBack(bins[i], op);
    assert c.ops[i] == BinOp(bins[i], op);
  }

  lemma FewRecordFields(key: Key, sendKey: bool, p: WritePolicy)
    requires ValidKey(key) && ValidFilter(p.filter)
    ensures |RecordFields(key, sendKey, p.filter)| < 0x1_0000
  {
    hide Storable, ParticleBytes, ParticleType;
  }
}
