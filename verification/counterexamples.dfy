/**
 Inputs for which the program does not do what one would expect: one for each of the conditions that the
 other modules prove to be exact.
 */
module Counterexamples {
  import opened Options
  import opened Bytes
  import opened Values
  import opened CommandBuffer
  import opened Encoding
  import opened Decoding
  import opened RoundTrip
  import opened Skipper
  import opened Cdt
  import opened Expressions
  import opened Messages
  import opened Commands
  import opened Headers
  import opened ScanBuilders
  import opened Stored
  import opened Batches
  import Accounts
  import ExpReader
  import RoundRobin
  import Pools
  import Recordsets
  import FullQueues
  import Routing
  import Jobs
  import Hosts

  /** The unsigned number 7 comes back signed. */
  lemma UnsignedSeven()
    ensures DecValue(Enc(Atom(UInt(7))), 0) != Done(Meaning(Atom(UInt(7))), |Enc(Atom(UInt(7)))|)
  {
    hide DecValue, Enc;
    var v := Atom(UInt(7));
    assert [] + Enc(v) + [] == Enc(v);
    NormalRoundTrip(v, [], []);
  }

  /** An HLL value inside a list comes back as a blob. */
  lemma HllInList()
    ensures var v := List([Atom(HLL([1]))]);
      DecValue(Enc(v), 0) != Done(Meaning(v), |Enc(v)|)
  {
    hide DecValue, Enc;
    var v := List([Atom(HLL([1]))]);
    assert [] + Enc(v) + [] == Enc(v);
    assert !NormalForm(v.items[0]);
    NormalRoundTrip(v, [], []);
  }

  /** An ext object of 255 bytes behind an 8-bit length makes the decoder panic. */
  lemma ExtOf255Bytes(body: bytes)
    requires |body| == 255
    ensures DecValue(EncExt(SizedExt(1, 0, body)), 0) == Panics
  {
    hide DecValue;
    WidthBounds();
    var e := SizedExt(1, 0, body);
    assert EncExt(e)[0..|EncExt(e)|] == EncExt(e);
    ExtIsSkipped(e, EncExt(e), 0);
  }

  /** An append to a list without a context is packed to more than one object. */
  lemma ListAppendWithoutContext()
    ensures !Objects(EncCdt(CdtOperation(1, CdtCodec, [IntArg(5)]), []), 1)
  {
    hide Objects, EncCdt;
    CdtIsObject(CdtOperation(1, CdtCodec, [IntArg(5)]), []);
  }

  /** A list that is not quoted is packed to the bytes of an operation: [80, 3] to those of a string key. */
  lemma UnquotedList()
    ensures var v := List([Atom(Int(80)), Atom(Int(3))]);
      var list := FilterExpression(None, Some(v), None, None, None, NoParts, NoArguments);
      var key := FilterExpression(Some(80), Some(Atom(Int(3))), None, None, None, NoParts, NoArguments);
      EncExp(list) == EncExp(key) && ExpReader.See(list) != ExpReader.See(key)
  {
    var v := List([Atom(Int(80)), Atom(Int(3))]);
    ItemsFront(v.items);
    ItemsFront(v.items[1..]);
    assert v.items[1..] == [Atom(Int(3))] && v.items[1..][1..] == [];
    assert ItemParts([]) == [];
    assert EncItems(v.items) == [80] + ([3] + []);
    assert Enc(v) == [0x92] + ([80] + ([3] + []));
  }

  /** A range query over an index that asks for an empty list of bins. */
  const QUERY := Statement([116], [115], None, SomeBins([]),
                           Some(Filter([98], 0, PARTICLE_INTEGER, Atom(Int(1)), Atom(Int(9)))), None)

  lemma QueryForNoBins(buf: CommandBuffer.Buffer, r: Outcome<()>, p: BasePolicy)
    requires ValidFilter(p.filter) && r.Ok? && QuerySent(buf, r, QueryCommand(p, QUERY, false, 0, []), CountsAbsentField(QUERY))
    ensures ReadCommand(buf.data) != Some(QueryCommand(p, QUERY, false, 0, []))
  {
    hide QuerySent, ReadCommand, QueryCommand;
    QueryIsReadBack(buf, r, p, QUERY, false, 0, []);
  }

  /** A batch read with the filter expression nil. */
  const NIL_FILTER := FilterExpression(None, Some(Atom(Nil)), None, None, None, NoParts, NoArguments)

  lemma FilteredBatch(batch: seq<BatchRead>, offsets: seq<nat>)
    requires ValidReads(batch, offsets)
    requires |SentMessage(BatchPolicy(BasePolicy(false, Some(NIL_FILTER)), true, true), batch, offsets)| < 0x1_0000_0000
    ensures ReadCommand(SentMessage(BatchPolicy(BasePolicy(false, Some(NIL_FILTER)), true, true), batch, offsets)) == None
  {
    hide SentMessage, ReadCommand;
    SentFiltered(BatchPolicy(BasePolicy(false, Some(NIL_FILTER)), true, true), batch, offsets);
  }

  /** A bin whose name has 256 bytes is not found under its name. */
  lemma LongBinName(name: bytes)
    requires |name| == 256
    ensures var bin := Bin(name, Atom(Int(1)));
      var b := BinOp(bin, 2);
      ReadBin(b) != Some(StoredBin(2, name, Done(Meaning(bin.value), |b|)))
  {
    hide ReadBin, BinOp;
    BinIsReadBack(Bin(name, Atom(Int(1))), 2);
  }

  /** A connection is opened in a queue of one, and put back: it is closed. */
  lemma QueueOfOne()
    ensures var w := Accounts.World({}, true, 7, true);
      Accounts.ApplyAll(Accounts.NEW, 1, [Accounts.Get(w), Accounts.PutBack(7)]) == Accounts.Account([], 0, {}, {7})
  {
    var w := Accounts.World({}, true, 7, true);
    var ops := [Accounts.Get(w), Accounts.PutBack(7)];
    assert ops[1..] == [Accounts.PutBack(7)] && ops[1..][1..] == [];
    var a := Accounts.Account([], 1, {7}, {});
    assert {} + {7} == {7} && {7} - {7} == {};
    assert Accounts.Apply(Accounts.NEW, 1, ops[0]) == a;
    assert Accounts.Apply(a, 1, ops[1]) == Accounts.Account([], 0, {}, {7});
    assert Accounts.ApplyAll(a, 1, ops[1..]) == Accounts.Account([], 0, {}, {7});
  }

  /** A queue that is cleared while connection 7 is out counts none. */
  lemma ClearedTooEarly()
    ensures !Accounts.Conserved(Accounts.AfterClear(Accounts.Account([], 1, {7}, {})), 2)
  {
  }

  /** Three queues of which the third has room, and a counter about to wrap: it looks at the first twice. */
  lemma WrappingCounter()
    ensures Pools.FailsWithRoom([true, true, false], Pools.WORD - 1)
  {
    assert Pools.WORD % 3 == 1;
    assert RoundRobin.Visited(Pools.WORD - 1, 0, 3, Pools.WORD) == 0;
    assert RoundRobin.Visited(Pools.WORD - 1, 1, 3, Pools.WORD) == 0;
    assert RoundRobin.Visited(Pools.WORD - 1, 2, 3, Pools.WORD) == 1;
    assert !([true, true, false][2]);
  }

  /** Three nodes of which the third is active, and a counter at -2: it looks at the second, the first and the second. */
  lemma CounterThroughZero()
    ensures Routing.FailsThoughActive([false, false, true], -2)
  {
    assert RoundRobin.SignedSpot(-2, 0, 3) == 1;
    assert RoundRobin.SignedSpot(-2, 1, 3) == 0;
    assert RoundRobin.SignedSpot(-2, 2, 3) == 1;
    assert [false, false, true][2];
  }

  /** A producer with a record, a queue of size 0, and a reader: the producer never ends. */
  lemma NoRoomAtAll(r: Recordsets.Record)
    ensures var steps := [Recordsets.See(0), Recordsets.Parse(0, Recordsets.Next(r))];
      Recordsets.Runs(Recordsets.Initial(0, 1, 1), steps)
      && !exists more :: FullQueues.EndsBy(Recordsets.EndOf(Recordsets.Initial(0, 1, 1), steps), more)
  {
    var start := Recordsets.Initial(0, 1, 1);
    var steps := [Recordsets.See(0), Recordsets.Parse(0, Recordsets.Next(r))];
    var a := Recordsets.After(start, steps[0]);
    var b := Recordsets.After(a, steps[1]);
    assert steps[1..] == [steps[1]] && steps[1..][1..] == [];
    assert Recordsets.Runs(b, []) && Recordsets.Runs(a, [steps[1]]) && Recordsets.Runs(start, steps);
    assert Recordsets.EndOf(b, []) == b && Recordsets.EndOf(a, [steps[1]]) == b;
    var p := Recordsets.Holding(Recordsets.Found(0, r));
    assert b.producers == [p] && [p][1..] == [] && b.queue == [];
    assert Recordsets.Sum([p], Recordsets.Claim) == 0;
    assert Recordsets.Sum([p], FullQueues.Waiting) == FullQueues.Waiting(p) == 1;
    Recordsets.InitialInvariant(0, 1, 1);
    Recordsets.RunInvariant(start, steps);
    FullQueues.CanEndExactly(b);
  }

  /** One job, and a policy of at most zero threads: the call succeeds and the job has not run. */
  lemma NoThreads()
    ensures !Jobs.OkMeansAllRan([[0]], Jobs.ThreadCount(Jobs.MaxThreads(0), 1))
  {
    hide Jobs.OkMeansAllRan;
    Jobs.OkMeansAllRanExactly([[0]], Jobs.MaxThreads(0));
  }

  /** A single read of a map by an operation carries the whole write policy. */
  lemma MapRead(p: WritePolicy, key: Key, c: CdtOperation)
    requires ValidKey(key) && ValidFilter(p.filter)
    ensures var os := [Operation(OP_CDT_READ, [], NamedBin([109]), CdtMapOp(c))];
      !SomeWrites(os) && TellsPolicy(OperateCommand(p, key, os).header, p)
  {
    hide OperateCommand, TellsPolicy;
    var os := [Operation(OP_CDT_READ, [], NamedBin([109]), CdtMapOp(c))];
    assert RespondsEach(p, os[0]);
    SentLikeWriteExactly(p, key, os);
  }

  /** A host with a colon in its name is not read back. */
  lemma HostWithColon()
    ensures var hosts := [Hosts.Host("a:b", 3000)];
      Hosts.ParseHosts(Hosts.ShowAll(hosts), 4000) != Some(hosts)
  {
    hide Hosts.ParseHosts, Hosts.ShowAll;
    var hosts := [Hosts.Host("a:b", 3000)];
    assert hosts[0].name[1] == ':';
    Hosts.HostsRoundTrip(hosts, 4000);
  }
}
