/**
 What the message of a scan or of a query tells, found in its bytes by the numbers of the protocol: partitions,
 timeouts, index ranges, lists of bins and calls.
 */
module Asked {
  import opened Options
  import opened Bytes
  import opened Values
  import opened RoundTrip
  import opened Encoding
  import opened Particles
  import opened Expressions
  import opened Messages
  import opened Commands
  import opened Headers
  import opened Told

  // ---------------------------------------------------------------------------------------------
  // Bodies of fields

  /** A field with an unsigned number of `width` bytes. */
  predicate HoldsNumber(body: Option<bytes>, width: nat, v: int)
  {
    body.Some? && |body.value| == width && FromBigEndian(body.value) == v
  }

  /** Partitions are two bytes each, the low one first. */
  predicate HoldsPartitions(body: Option<bytes>, partitions: seq<u16>)
  {
    && body.Some? && |body.value| == 2 * |partitions|
    && forall i :: 0 <= i < |partitions| ==> PairAt(body.value, i) == partitions[i]
  }

  function PairAt(b: bytes, i: nat): int
    requires 2 * i + 1 < |b|
  {
    var low: int, high: int := b[2 * i], b[2 * i + 1];
    low + 256 * high
  }

  /** A range of an index: the bin, the type of its values, and the bytes of both ends. */
  datatype Range = Range(bin: bytes, particle: byte, begin: bytes, end: bytes)

  /** One range: a length and a name, a type, and twice a length of four bytes and a value. */
  function ReadRange(b: bytes): Option<Range>
  {
    if |b| < 2 || b[0] != 1 then None
    else
      var length: int := b[1];
      var n := 2 + length;
      if n + 5 > |b| then None
      else
        var m := n + 5 + FromBigEndian(b[n + 1..n + 5]);
        if m + 4 > |b| || m + 4 + FromBigEndian(b[m..m + 4]) != |b| then None
        else Some(Range(b[2..n], b[n], b[n + 5..m], b[m + 4..]))
  }

  /** A count of one byte, and that many names with their lengths in front. */
  function ReadList(b: bytes): Option<seq<bytes>>
  {
    if b == [] then None else ReadNames(b, 1, b[0])
  }

  function ReadNames(b: bytes, at: nat, n: nat): Option<seq<bytes>>
    decreases n
  {
    if n == 0 then if at == |b| then Some([]) else None
    else if at >= |b| then None
    else
      var length: int := b[at];
      var next := at + 1 + length;
      if next > |b| then None
      else
        match ReadNames(b, next, n - 1)
        case None => None
        case Some(rest) => Some([b[at + 1..next]] + rest)
  }

  lemma {:induction false} PairsAt(partitions: seq<u16>, i: nat)
    requires i < |partitions|
    ensures var b := Concat(PidParts(partitions));
      |b| == 2 * |partitions| && PairAt(b, i) == partitions[i]
  {
    var parts := PidParts(partitions);
    assert parts[1..] == PidParts(partitions[1..]);
    var rest := Concat(parts[1..]);
    assert parts[0] == [partitions[0] % 256, partitions[0] / 256];
    assert Concat(parts) == parts[0] + rest;
    if i > 0 {
      PairsAt(partitions[1..], i - 1);
      assert Concat(parts)[2 * i] == rest[2 * (i - 1)] && Concat(parts)[2 * i + 1] == rest[2 * (i - 1) + 1];
    } else if |partitions| > 1 {
      PairsAt(partitions[1..], 0);
    } else {
      assert parts[1..] == [];
    }
  }

  lemma PartitionsAreHeld(partitions: seq<u16>)
    ensures HoldsPartitions(Some(PidField(partitions).body), partitions)
  {
    hide PairAt;
    if partitions == [] {
      assert PidParts(partitions) == [];
    } else {
      PairsAt(partitions, 0);
    }
    forall i | 0 <= i < |partitions|
      ensures 2 * i + 1 < |PidField(partitions).body| && PairAt(PidField(partitions).body, i) == partitions[i]
    {
      PairsAt(partitions, i);
    }
  }

  /** A range is read back exactly if the name of its bin fits the byte for its length. */
  lemma RangeIsRead(f: Filter)
    requires ValidIndexFilter(f)
    requires |ParticleBytes(f.begin)| < 0x1_0000_0000 && |ParticleBytes(f.end)| < 0x1_0000_0000
    ensures ReadRange([1] + IndexFilterBytes(f))
            == Some(Range(f.binName, f.particle, ParticleBytes(f.begin), ParticleBytes(f.end)))
       <==> |f.binName| < 0x100
  {
    hide BigEndian, FromBigEndian, ParticleBytes, Storable, ReadRange;
    var name, begin, end := f.binName, ParticleBytes(f.begin), ParticleBytes(f.end);
    var b, x, y := [1] + IndexFilterBytes(f), BigEndian(4, |begin|), BigEndian(4, |end|);
    ReadBackWidths(|begin|);
    ReadBackWidths(|end|);
    if |name| < 0x100 {
      assert b == [1, |name|] + name + [f.particle] + x + begin + y + end;
      RangeRead(name, f.particle, x, begin, y, end);
    } else {
      assert b[0] == 1 && b[1] == |name| % 0x100 < 0x100;
      ShortBin(b);
    }
  }

  lemma RangeRead(name: bytes, particle: byte, x: bytes, begin: bytes, y: bytes, end: bytes)
    requires |name| < 0x100 && |x| == 4 && |y| == 4 && FromBigEndian(x) == |begin| && FromBigEndian(y) == |end|
    ensures ReadRange([1, |name|] + name + [particle] + x + begin + y + end) == Some(Range(name, particle, begin, end))
  {
    hide FromBigEndian;
    RangeLayout(name, particle, x, begin, y, end);
  }

  lemma ShortBin(b: bytes)
    requires |b| >= 2
    ensures ReadRange(b).Some? ==> |ReadRange(b).value.bin| == b[1]
  {
    hide FromBigEndian;
  }

  lemma RangeLayout(name: bytes, particle: byte, x: bytes, begin: bytes, y: bytes, end: bytes)
    requires |name| < 0x100 && |x| == 4 && |y| == 4
    ensures var b := [1, |name|] + name + [particle] + x + begin + y + end;
            var n, m := 2 + |name|, 2 + |name| + 5 + |begin|;
      && b[0] == 1 && b[1] == |name|
      && b[2..n] == name && b[n] == particle && b[n + 1..n + 5] == x && b[n + 5..m] == begin
      && b[m..m + 4] == y && b[m + 4..] == end && |b| == m + 4 + |end|
  {
  }

  /** The first name behind its length, and the others behind it. */
  lemma NameFront(names: seq<bytes>, b: bytes, at: nat)
    requires names != [] && At(b, at, Concat(NameParts(names)))
    ensures var next := at + 1 + |names[0]|;
      && next <= |b| && b[at] == |names[0]| % 0x100 && b[at + 1..next] == names[0]
      && At(b, next, Concat(NameParts(names[1..])))
      && |Concat(NameParts(names))| == 1 + |names[0]| + |Concat(NameParts(names[1..]))|
  {
    hide At, Concat;
    var parts, name := NameParts(names), names[0];
    ConcatFront(parts);
    assert parts[1..] == NameParts(names[1..]) && parts[0] == [|name| % 0x100] + name;
    AtSplit(b, at, parts[0], Concat(parts[1..]));
    AtSplit(b, at, [|name| % 0x100], name);
    ByteAt(b, at, |name| % 0x100);
    AtBounds(b, at + 1, name);
  }

  lemma {:induction false} NamesRead(names: seq<bytes>, b: bytes, at: nat)
    requires forall i :: 0 <= i < |names| ==> |names[i]| < 0x100
    requires At(b, at, Concat(NameParts(names))) && at + |Concat(NameParts(names))| == |b|
    ensures ReadNames(b, at, |names|) == Some(names)
  {
    hide At, Concat, NameParts;
    if names == [] {
      NoNames();
    } else {
      NameFront(names, b, at);
      NamesRead(names[1..], b, at + 1 + |names[0]|);
      assert [names[0]] + names[1..] == names;
    }
  }

  lemma NoNames()
    ensures Concat(NameParts([])) == []
  {
    assert NameParts([]) == [];
  }

  lemma {:induction false} NamesCounted(b: bytes, at: nat, n: nat)
    requires ReadNames(b, at, n).Some?
    ensures |ReadNames(b, at, n).value| == n
    decreases n
  {
    if n > 0 {
      var length: int := b[at];
      NamesCounted(b, at + 1 + length, n - 1);
    }
  }

  /** A name of 256 bytes or more is cut by the byte for its length. */
  lemma {:induction false} LongNameMisread(names: seq<bytes>, b: bytes, at: nat)
    requires exists i :: 0 <= i < |names| && |names[i]| >= 0x100
    requires At(b, at, Concat(NameParts(names)))
    ensures ReadNames(b, at, |names|).Some? ==> ReadNames(b, at, |names|).value != names
  {
    hide At, Concat, NameParts;
    var name, rest := names[0], names[1..];
    NameFront(names, b, at);
    if ReadNames(b, at, |names|).Some? {
      var found := ReadNames(b, at, |names|).value;
      if |name| < 0x100 {
        var i :| 0 <= i < |names| && |names[i]| >= 0x100;
        assert rest[i - 1] == names[i];
        LongNameMisread(rest, b, at + 1 + |name|);
        assert found[1..] == ReadNames(b, at + 1 + |name|, |rest|).value;
      } else {
        assert |found[0]| == |name| % 0x100;
      }
    }
  }

  /** A list of bins is read back exactly if its names can be counted in a byte, and so can the bytes of each of them. */
  lemma ListIsRead(names: seq<bytes>)
    ensures ReadList(BinListField(names).body) == Some(names) <==>
            |names| < 0x100 && forall i :: 0 <= i < |names| ==> |names[i]| < 0x100
  {
    hide ReadNames, NameParts, Concat;
    var b, rest := BinListField(names).body, Concat(NameParts(names));
    assert b[1..1 + |rest|] == rest;
    var n := |names| % 0x100;
    if ReadNames(b, 1, n).Some? {
      NamesCounted(b, 1, n);
    }
    if |names| < 0x100 {
      if forall i :: 0 <= i < |names| ==> |names[i]| < 0x100 {
        NamesRead(names, b, 1);
      } else {
        LongNameMisread(names, b, 1);
      }
    }
  }

  // ---------------------------------------------------------------------------------------------
  // Scans

  /** A scan of partitions of a namespace, and of a set if one is named. */
  predicate TellsScan(d: bytes, p: ScanPolicy, namespace: bytes, setName: bytes, taskId: u64, partitions: seq<u16>)
    requires ValidFilter(p.filter)
  {
    && Framed(d) && FieldsOf(d).Some?
    && var fields := FieldsOf(d).value.0;
       && Find(fields, 0) == (if namespace == [] then None else Some(namespace))
       && Find(fields, 1) == (if setName == [] then None else Some(setName))
       && HoldsPartitions(Find(fields, 11), partitions)
       && Find(fields, 43) == (if p.filter.Some? then Some(EncExp(p.filter.value)) else None)
       && HoldsNumber(Find(fields, 9), 4, p.socketTimeout)
       && HoldsNumber(Find(fields, 7), 8, taskId)
       && forall i :: 0 <= i < |fields| ==> fields[i].code in {0, 1, 7, 9, 11, 43}
  }

  lemma FindFilter(filter: Option<FilterExpression>, code: int)
    requires ValidFilter(filter)
    ensures Find(FilterFields(filter), code) == if filter.Some? && code == 43 then Some(EncExp(filter.value)) else None
  {
    hide EncExp, Packable;
    if filter.Some? {
      FindOne(FilterFields(filter)[0], code);
    }
  }

  lemma FindInScan(p: ScanPolicy, namespace: bytes, setName: bytes, taskId: u64, partitions: seq<u16>, code: int)
    requires ValidFilter(p.filter)
    ensures Find(ScanFields(p, namespace, setName, taskId, partitions), code) ==
      if code == 0 && namespace != [] then Some(namespace)
      else if code == 1 && setName != [] then Some(setName)
      else if code == 11 then Some(PidField(partitions).body)
      else if code == 43 && p.filter.Some? then Some(EncExp(p.filter.value))
      else if code == 9 then Some(BigEndian(4, p.socketTimeout))
      else if code == 7 then Some(BigEndian(8, taskId))
      else None
  {
    hide Find, NonEmptyField, EncExp, Packable, BigEndian, PidParts, Concat, FilterFields;
    var ns, table, pids := NonEmptyField(NAMESPACE, namespace), NonEmptyField(TABLE, setName), [PidField(partitions)];
    var filter, time := FilterFields(p.filter), Field(SCAN_TIMEOUT, BigEndian(4, p.socketTimeout));
    var task := Field(TRAN_ID, BigEndian(8, taskId));
    FindNonEmpty(NAMESPACE, namespace, code);
    FindNonEmpty(TABLE, setName, code);
    FindOne(pids[0], code);
    FindFilter(p.filter, code);
    FindOne(time, code);
    FindOne(task, code);
    assert [time, task] == [time] + [task];
    FindJoin([time], [task], code);
    FindJoin(ns, table, code);
    FindJoin(ns + table, pids, code);
    FindJoin(ns + table + pids, filter, code);
    FindJoin(ns + table + pids + filter, [time, task], code);
  }

  lemma ScanCodes(p: ScanPolicy, namespace: bytes, setName: bytes, taskId: u64, partitions: seq<u16>)
    requires ValidFilter(p.filter)
    ensures var fields := ScanFields(p, namespace, setName, taskId, partitions);
      |fields| <= 6 && forall i :: 0 <= i < |fields| ==> fields[i].code in {0, 1, 7, 9, 11, 43}
  {
    hide EncExp, Packable, BigEndian, PidParts, Concat;
  }

  lemma ScanTold(p: ScanPolicy, namespace: bytes, setName: bytes, bins: Bins, taskId: u64, partitions: seq<u16>)
    requires ValidFilter(p.filter)
    requires CommandSize(ScanCommand(p, namespace, setName, bins, taskId, partitions)) < 0x1_0000_0000
    ensures var d := CommandBytes(ScanCommand(p, namespace, setName, bins, taskId, partitions));
      && TellsScan(d, p, namespace, setName, taskId, partitions)
      && TellsAttributes(d, p.consistencyAll, 1 + (if bins.NoBins? then 32 else 0), 0)
      && TellsOps(d, if bins.SomeBins? then Unvalued(1, bins.names) else [])
  {
    hide Find, ScanFields, FieldsOf, Framed, TellsOps, CommandBytes, CommandSize, EncExp, Packable, BigEndian,
         FromBigEndian, PlainHeader, BitOr, HoldsPartitions, PidField;
    var c := ScanCommand(p, namespace, setName, bins, taskId, partitions);
    ScanCodes(p, namespace, setName, taskId, partitions);
    CommandTells(c);
    PlainSums(p.consistencyAll, 0);
    PartitionsAreHeld(partitions);
    ReadBackWidths(p.socketTimeout);
    ReadBackWidths(taskId);
    forall code | code in {0, 1, 7, 9, 11, 43} {
      FindInScan(p, namespace, setName, taskId, partitions, code);
    }
    if bins.SomeBins? {
      NamesAreRead(bins.names);
    }
  }

  // ---------------------------------------------------------------------------------------------
  // Queries

  /**
   What a query tells in its fields: where to look, as a scan does or by a range of an index; which bins to return; and
   what to call for each record, with an operation of 2 if no bins are returned and of 1 otherwise.
   */
  predicate AsksQuery(fields: seq<Field>, st: Statement, filter: Option<FilterExpression>, taskId: u64,
                      partitions: seq<u16>)
    requires ValidStatement(st) && ValidFilter(filter)
  {
    && Find(fields, 0) == (if st.namespace == [] then None else Some(st.namespace))
    && Find(fields, 1) == (if st.setName == [] then None else Some(st.setName))
    && Find(fields, 21) == (if st.indexName.None? || st.indexName.value == [] then None else st.indexName)
    && HoldsNumber(Find(fields, 7), 8, taskId)
    && Find(fields, 43) == (if filter.Some? then Some(EncExp(filter.value)) else None)
    && AsksIndex(fields, st, partitions)
    && AsksCall(fields, st)
    && forall i :: 0 <= i < |fields| ==> fields[i].code in {0, 1, 7, 11, 21, 22, 26, 30, 31, 32, 33, 40, 43}
  }

  predicate AsksIndex(fields: seq<Field>, st: Statement, partitions: seq<u16>)
    requires ValidStatement(st)
  {
    if st.filters.None? then
      && HoldsPartitions(Find(fields, 11), partitions)
      && Find(fields, 22) == None && Find(fields, 26) == None && Find(fields, 40) == None
    else
      var f := st.filters.value;
      && Find(fields, 11) == None
      && Find(fields, 26) == (if f.indexType == 0 then None else Some([f.indexType]))
      && Find(fields, 22).Some?
      && (|ParticleBytes(f.begin)| < 0x1_0000_0000 && |ParticleBytes(f.end)| < 0x1_0000_0000 ==>
            (ReadRange(Find(fields, 22).value)
             == Some(Range(f.binName, f.particle, ParticleBytes(f.begin), ParticleBytes(f.end)))
             <==> |f.binName| < 0x100))
      && AsksBins(Find(fields, 40), st.bins)
  }

  predicate AsksBins(body: Option<bytes>, bins: Bins)
  {
    if !bins.SomeBins? || bins.names == [] then body == None
    else
      && body.Some?
      && (ReadList(body.value) == Some(bins.names) <==>
          |bins.names| < 0x100 && forall i :: 0 <= i < |bins.names| ==> |bins.names[i]| < 0x100)
  }

  predicate AsksCall(fields: seq<Field>, st: Statement)
  {
    if st.aggregation.None? then
      Find(fields, 33) == None && Find(fields, 30) == None && Find(fields, 31) == None && Find(fields, 32) == None
    else
      var a := st.aggregation.value;
      && Find(fields, 33) == Some([if st.bins.NoBins? then 2 else 1])
      && TellsCall(fields, a.packageName, a.functionName, a.args)
  }

  /** The query in the fields that were written. */
  lemma FindInIndex(st: Statement, partitions: seq<u16>, code: int)
    requires ValidStatement(st)
    ensures Find(IndexFields(st, partitions), code) ==
      if st.filters.None? then if code == 11 then Some(PidField(partitions).body) else None
      else if code == 26 && st.filters.value.indexType != 0 then Some([st.filters.value.indexType])
      else if code == 22 then Some([1] + IndexFilterBytes(st.filters.value))
      else if code == 40 && st.bins.SomeBins? && st.bins.names != [] then Some(BinListField(st.bins.names).body)
      else None
  {
    hide Find, PidParts, Concat, IndexFilterBytes, Storable, NameParts;
    FindNothing(code);
    if st.filters.None? {
      FindOne(PidField(partitions), code);
    } else {
      var f := st.filters.value;
      var kind := if f.indexType != 0 then [Field(INDEX_TYPE, [f.indexType])] else [];
      var range := [Field(INDEX_RANGE, [1] + IndexFilterBytes(f))];
      var list := if st.bins.SomeBins? && st.bins.names != [] then [BinListField(st.bins.names)] else [];
      if f.indexType != 0 { FindOne(kind[0], code); }
      FindOne(range[0], code);
      if list != [] { FindOne(list[0], code); }
      FindJoin(kind, range, code);
      FindJoin(kind + range, list, code);
    }
  }

  lemma FindInAggregation(st: Statement, code: int)
    ensures Find(AggregationFields(st), code) ==
      if st.aggregation.None? then None
      else if code == 33 then Some([if st.bins.NoBins? then 2 else 1])
      else if 30 <= code <= 32
           then Some(UdfFields(st.aggregation.value.packageName, st.aggregation.value.functionName,
                               st.aggregation.value.args)[code - 30].body)
      else None
  {
    hide Find, EncArray;
    FindNothing(code);
    if st.aggregation.Some? {
      var a := st.aggregation.value;
      var op, udf := [Field(UDF_OP, [if st.bins.NoBins? then 2 else 1])], UdfFields(a.packageName, a.functionName, a.args);
      FindOne(op[0], code);
      FindJoin(op, udf, code);
      if 30 <= code <= 32 {
        FindInCall(udf, code);
      } else {
        NotFound(udf, code);
      }
    }
  }

  /** A code is found in the group of fields that it belongs to. */
  lemma FindInQuery(st: Statement, filter: Option<FilterExpression>, taskId: u64, partitions: seq<u16>, code: int)
    requires ValidStatement(st) && ValidFilter(filter)
    ensures Find(QueryFields(st, filter, taskId, partitions), code) ==
      if code == 0 && st.namespace != [] then Some(st.namespace)
      else if code == 21 && st.indexName.Some? && st.indexName.value != [] then st.indexName
      else if code == 1 && st.setName != [] then Some(st.setName)
      else if code == 7 then Some(BigEndian(8, taskId))
      else if Find(IndexFields(st, partitions), code).Some? then Find(IndexFields(st, partitions), code)
      else if code == 43 && filter.Some? then Some(EncExp(filter.value))
      else Find(AggregationFields(st), code)
  {
    hide Find, NonEmptyField, IndexFields, AggregationFields, FilterFields, BigEndian, EncExp, Packable, ValidStatement;
    var name := if st.indexName.Some? then st.indexName.value else [];
    var a, b := NonEmptyField(NAMESPACE, st.namespace), NonEmptyField(INDEX_NAME, name);
    var c := NonEmptyField(TABLE, st.setName);
    var d, e, f, g := [Field(TRAN_ID, BigEndian(8, taskId))], IndexFields(st, partitions), FilterFields(filter),
                      AggregationFields(st);
    FindNonEmpty(NAMESPACE, st.namespace, code);
    FindNonEmpty(INDEX_NAME, name, code);
    FindNonEmpty(TABLE, st.setName, code);
    FindOne(d[0], code);
    FindFilter(filter, code);
    FindJoin(a, b, code);
    FindJoin(a + b, c, code);
    FindJoin(a + b + c, d, code);
    FindJoin(a + b + c + d, e, code);
    FindJoin(a + b + c + d + e, f, code);
    FindJoin(a + b + c + d + e + f, g, code);
  }

  lemma QueryFind(st: Statement, filter: Option<FilterExpression>, taskId: u64, partitions: seq<u16>, code: int)
    requires ValidStatement(st) && ValidFilter(filter)
    ensures Find(QueryFields(st, filter, taskId, partitions), code) ==
      if code == 0 then if st.namespace != [] then Some(st.namespace) else None
      else if code == 21 then if st.indexName.Some? && st.indexName.value != [] then st.indexName else None
      else if code == 1 then if st.setName != [] then Some(st.setName) else None
      else if code == 7 then Some(BigEndian(8, taskId))
      else if code == 43 then if filter.Some? then Some(EncExp(filter.value)) else None
      else if code in {11, 22, 26, 40} then Find(IndexFields(st, partitions), code)
      else if code in {30, 31, 32, 33} then Find(AggregationFields(st), code)
      else None
  {
    hide Find, QueryFields, IndexFields, AggregationFields, BigEndian, EncExp, Packable, IndexFilterBytes,
         ValidIndexFilter, BinListField, PidField, UdfFields;
    FindInQuery(st, filter, taskId, partitions, code);
    FindInIndex(st, partitions, code);
    FindInAggregation(st, code);
  }

  predicate CodesIn(fields: seq<Field>, codes: set<int>)
  {
    forall i :: 0 <= i < |fields| ==> fields[i].code in codes
  }

  lemma GroupCodes(st: Statement, filter: Option<FilterExpression>, partitions: seq<u16>)
    requires ValidStatement(st) && ValidFilter(filter)
    ensures |IndexFields(st, partitions)| <= 3 && CodesIn(IndexFields(st, partitions), {11, 22, 26, 40})
    ensures |FilterFields(filter)| <= 1 && CodesIn(FilterFields(filter), {43})
    ensures |AggregationFields(st)| <= 4 && CodesIn(AggregationFields(st), {30, 31, 32, 33})
  {
    hide EncExp, Packable, PidParts, Concat, IndexFilterBytes, NameParts, EncArray, ValidIndexFilter;
  }

  lemma QueryCodes(st: Statement, filter: Option<FilterExpression>, taskId: u64, partitions: seq<u16>)
    requires ValidStatement(st) && ValidFilter(filter)
    ensures var fields := QueryFields(st, filter, taskId, partitions);
      && |fields| <= 12
      && forall i :: 0 <= i < |fields| ==> fields[i].code in {0, 1, 7, 11, 21, 22, 26, 30, 31, 32, 33, 40, 43}
  {
    hide BigEndian, IndexFields, FilterFields, AggregationFields, ValidStatement;
    GroupCodes(st, filter, partitions);
  }

  lemma QueryIsAsked(st: Statement, filter: Option<FilterExpression>, taskId: u64, partitions: seq<u16>)
    requires ValidStatement(st) && ValidFilter(filter)
    ensures AsksQuery(QueryFields(st, filter, taskId, partitions), st, filter, taskId, partitions)
  {
    hide Find, QueryFields, BigEndian, FromBigEndian, EncExp, Packable, AsksIndex, AsksCall, ValidIndexFilter;
    QueryCodes(st, filter, taskId, partitions);
    ReadBackWidths(taskId);
    QueryFind(st, filter, taskId, partitions, 0);
    QueryFind(st, filter, taskId, partitions, 1);
    QueryFind(st, filter, taskId, partitions, 7);
    QueryFind(st, filter, taskId, partitions, 21);
    QueryFind(st, filter, taskId, partitions, 43);
    IndexIsAsked(st, filter, taskId, partitions);
    CallIsAsked(st, filter, taskId, partitions);
  }

  lemma IndexIsAsked(st: Statement, filter: Option<FilterExpression>, taskId: u64, partitions: seq<u16>)
    requires ValidStatement(st) && ValidFilter(filter)
    ensures AsksIndex(QueryFields(st, filter, taskId, partitions), st, partitions)
  {
    hide Find, QueryFields, BigEndian, EncExp, Packable, PidField, HoldsPartitions, IndexFilterBytes, ParticleBytes,
         Storable, BinListField, ReadRange, ReadList, IndexFields, AggregationFields;
    PartitionsAreHeld(partitions);
    QueryFind(st, filter, taskId, partitions, 11);
    FindInIndex(st, partitions, 11);
    QueryFind(st, filter, taskId, partitions, 22);
    FindInIndex(st, partitions, 22);
    QueryFind(st, filter, taskId, partitions, 26);
    FindInIndex(st, partitions, 26);
    QueryFind(st, filter, taskId, partitions, 40);
    FindInIndex(st, partitions, 40);
    if st.filters.Some? {
      var f := st.filters.value;
      if |ParticleBytes(f.begin)| < 0x1_0000_0000 && |ParticleBytes(f.end)| < 0x1_0000_0000 {
        RangeIsRead(f);
      }
      if st.bins.SomeBins? {
        ListIsRead(st.bins.names);
      }
    }
  }

  lemma CallIsAsked(st: Statement, filter: Option<FilterExpression>, taskId: u64, partitions: seq<u16>)
    requires ValidStatement(st) && ValidFilter(filter)
    ensures AsksCall(QueryFields(st, filter, taskId, partitions), st)
  {
    hide Find, QueryFields, BigEndian, EncExp, Packable, IndexFields, AggregationFields, EncArray;
    QueryFind(st, filter, taskId, partitions, 30);
    FindInAggregation(st, 30);
    QueryFind(st, filter, taskId, partitions, 31);
    FindInAggregation(st, 31);
    QueryFind(st, filter, taskId, partitions, 32);
    FindInAggregation(st, 32);
    QueryFind(st, filter, taskId, partitions, 33);
    FindInAggregation(st, 33);
  }

  /**
   A query in a message.  With a range of an index and an empty list of bins, the header counts a field more than
   there are.
   */
  predicate TellsQuery(d: bytes, p: BasePolicy, st: Statement, write: bool, taskId: u64, partitions: seq<u16>)
    requires ValidStatement(st) && ValidFilter(p.filter)
  {
    && Framed(d)
    && TellsAttributes(d, p.consistencyAll, 1 + (if st.bins.NoBins? then 32 else 0), if write then 1 else 0)
    && var n := FromBigEndian(d[26..28]) - (if st.filters.Some? && st.bins == SomeBins([]) then 1 else 0);
       var names := if st.filters.None? && st.bins.SomeBins? then st.bins.names else [];
       && n >= 0 && ReadFields(d, 30, n).Some?
       && AsksQuery(ReadFields(d, 30, n).value.0, st, p.filter, taskId, partitions)
       && FromBigEndian(d[28..30]) == |names| % 0x1_0000
       && ReadOps(d, ReadFields(d, 30, n).value.1, |names|) == Some((Unvalued(1, names), |d|))
  }

  lemma QueryTold(p: BasePolicy, st: Statement, write: bool, taskId: u64, partitions: seq<u16>)
    requires ValidStatement(st) && ValidFilter(p.filter)
    requires CommandSize(QueryCommand(p, st, write, taskId, partitions)) < 0x1_0000_0000
    ensures var c := QueryCommand(p, st, write, taskId, partitions);
      TellsQuery(Prelude(CommandSize(c))
                 + HeaderTail(c.header, |c.fields| + (if st.filters.Some? && st.bins == SomeBins([]) then 1 else 0),
                              |c.ops|)
                 + Body(c),
                 p, st, write, taskId, partitions)
  {
    hide QueryFields, Framed, CommandSize, EncExp, Packable, FromBigEndian, PlainHeader, BitOr, AsksQuery,
         ValidIndexFilter, Prelude, HeaderTail, Body, ReadFields, ReadOps;
    var c := QueryCommand(p, st, write, taskId, partitions);
    QueryCodes(st, p.filter, taskId, partitions);
    QueryIsAsked(st, p.filter, taskId, partitions);
    MessageTells(c, |c.fields| + if st.filters.Some? && st.bins == SomeBins([]) then 1 else 0);
    PlainSums(p.consistencyAll, if write then 1 else 0);
    NamesAreRead(if st.filters.None? && st.bins.SomeBins? then st.bins.names else []);
  }
}
