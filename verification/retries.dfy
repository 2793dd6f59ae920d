/**
 The retry loop of a command (src/commands/single_command.rs) and what it does with the connections it
 takes.  What the world answers to each attempt is a script.
 */
module Retries {
  import opened Options
  import opened Accounts
  import opened RoundRobin
  import opened Pools

  datatype Parsed = Success | KeyNotFound | OtherFailure

  /** `node` is the node of the attempt, if one is active. */
  datatype Attempt = Attempt(
    late: bool,
    node: Option<nat>,
    world: World,
    prepared: bool,
    timed: bool,
    sent: bool,
    parsed: Parsed)

  datatype ExecResult = Completed | Failed | TimedOut | TooManyTries | StillRunning

  /** The connection that an attempt held, and the queue it is of. */
  datatype Held = Held(queue: Queue, conn: Connection)

  function AllQueues(pools: seq<ConnectionPool>): (all: set<Queue>)
    ensures forall i, q :: 0 <= i < |pools| && q in pools[i].queues ==> q in all
  {
    set p, q | p in pools && q in p.queues :: q
  }

  ghost predicate Separate(pools: seq<ConnectionPool>)
  {
    forall i, j :: 0 <= i < j < |pools| ==> pools[i] != pools[j] && forall q :: q in pools[i].queues ==> q !in pools[j].queues
  }

  ghost predicate ValidPools(pools: seq<ConnectionPool>)
    reads pools, AllQueues(pools)
  {
    Separate(pools) && forall i :: 0 <= i < |pools| ==> pools[i].Valid()
  }

  ghost predicate NewTo(pools: seq<ConnectionPool>, c: Connection)
    reads AllQueues(pools)
  {
    forall q :: q in AllQueues(pools) ==> !Knows(q.Books(), c)
  }

  /** What putting a connection back leads to: it is the last of the idle ones, or closed if the queue was full. */
  ghost predicate PutBackTo(q: Queue, c: Connection)
    reads q
  {
    if c in q.closed then |q.connections| + |q.out| + 1 == q.capacity
    else q.connections != [] && q.connections[|q.connections| - 1] == c && |q.connections| + |q.out| < q.capacity
  }

  /** With a connection in hand: sends the command and parses the reply, and gives the connection back. */
  method Converse(a: Attempt, conn: PooledConnection) returns (r: Option<ExecResult>)
    requires conn.Valid() && conn.conn.Some?
    modifies conn, conn.queue
    ensures r == Some(Completed) <==> a.prepared && a.timed && a.sent && a.parsed.Success?
    ensures r == Some(Failed) <==> !a.prepared || !a.timed || (a.sent && !a.parsed.Success?)
    ensures r == None <==> a.prepared && a.timed && !a.sent
    ensures conn.queue.Valid() && SameConnections(old(conn.queue.Books()), conn.queue.Books())
    ensures conn.queue.out == old(conn.queue.out) - {old(conn.conn).value}
    ensures old(conn.queue.closed) <= conn.queue.closed
    ensures a.prepared && a.timed && (!a.sent || a.parsed.OtherFailure?) ==>
              old(conn.conn).value in conn.queue.closed && conn.queue.connections == old(conn.queue.connections)
    ensures !a.prepared || !a.timed || (a.sent && !a.parsed.OtherFailure?) ==>
              conn.queue.Books() == AfterPutBack(old(conn.queue.Books()), conn.queue.capacity, old(conn.conn).value)
    ensures !a.prepared || !a.timed || (a.sent && !a.parsed.OtherFailure?) ==>
              PutBackTo(conn.queue, old(conn.conn).value)
  {
    hide Conserved, AfterDrop, Knows;
    ghost var before, capacity, c := conn.queue.Books(), conn.queue.capacity, conn.conn.value;
    PutBackPlaces(before, capacity, c);
    if !a.prepared || !a.timed {
      conn.Drop();
      return Some(Failed);
    }
    if !a.sent {
      Dropped(before, c);
      conn.Invalidate();
      return None;
    }
    match a.parsed {
      case Success =>
        conn.Drop();
        return Some(Completed);
      case KeyNotFound =>
        conn.Drop();
        return Some(Failed);
      case OtherFailure =>
        Dropped(before, c);
        conn.Invalidate();
        return Some(Failed);
    }
  }

  lemma Dropped(a: Account, c: Connection)
    ensures var b := AfterDrop(a, c);
      b.out == a.out - {c} && b.closed == a.closed + {c} && b.idle == a.idle
  {
  }

  lemma PutBackPlaces(a: Account, capacity: nat, c: Connection)
    requires Conserved(a, capacity) && c in a.out
    ensures var b := AfterPutBack(a, capacity, c);
      && b.out == a.out - {c} && a.closed <= b.closed
      && if c in b.closed then |b.idle| + |b.out| + 1 == capacity
         else b.idle != [] && b.idle[|b.idle| - 1] == c && |b.idle| + |b.out| < capacity
  {
    hide Distinct;
  }

  /** One attempt.  Whatever happens, nothing more is checked out afterwards than before. */
  method TryOnce(pool: ConnectionPool, a: Attempt) returns (r: Option<ExecResult>, i: nat, ghost held: Option<Held>)
    requires pool.Valid() && forall q :: q in pool.queues ==> !Knows(q.Books(), a.world.created)
    modifies pool, pool.queues
    ensures pool.Valid() && i < pool.numQueues
    ensures held.Some? <==> AfterGet(old(pool.queues[i].Books()), pool.queues[i].capacity, a.world).1.Got?
    ensures held.None? ==> r.None?
    ensures held.Some? ==>
              && held.value.queue == pool.queues[i]
              && AfterGet(old(pool.queues[i].Books()), pool.queues[i].capacity, a.world).1 == Got(held.value.conn)
              && (r == Some(Completed) <==> a.prepared && a.timed && a.sent && a.parsed.Success?)
              && (r == Some(Failed) <==> !a.prepared || !a.timed || (a.sent && !a.parsed.Success?))
              && (r == None <==> a.prepared && a.timed && !a.sent)
              && (a.prepared && a.timed && (!a.sent || a.parsed.OtherFailure?) ==>
                    held.value.conn in held.value.queue.closed)
              && (!a.prepared || !a.timed || (a.sent && !a.parsed.OtherFailure?) ==>
                    PutBackTo(held.value.queue, held.value.conn))
    ensures forall j :: 0 <= j < pool.numQueues && j != i ==> pool.queues[j].Books() == old(pool.queues[j].Books())
    ensures forall j :: 0 <= j < pool.numQueues ==> pool.queues[j].out == old(pool.queues[j].out)
    ensures forall j :: 0 <= j < pool.numQueues ==> old(pool.queues[j].closed) <= pool.queues[j].closed
    ensures forall j, c :: 0 <= j < pool.numQueues && Knows(pool.queues[j].Books(), c) ==>
              old(Knows(pool.queues[j].Books(), c)) || c == a.world.created
    ensures forall j, c :: 0 <= j < pool.numQueues && old(Knows(pool.queues[j].Books(), c)) ==> Knows(pool.queues[j].Books(), c)
  {
    hide Conserved, AfterGet, Knows, Share, Visited, Covers, Fullness, AskedFull, PutBackTo, AfterPutBack;
    var g;
    ghost var k;
    g, i, k := pool.Get(a.world);
    ClosedStayClosed(old(pool.queues[i].Books()), pool.queues[i].capacity, a.world);
    if !g.Got? {
      return None, i, None;
    }
    var q := pool.queues[i];
    held := Some(Held(q, g.conn));
    var conn := new PooledConnection(q, g.conn);
    r := Converse(a, conn);
    assert q.out == old(pool.queues[i].out);
  }

  /** The attempt on the node it names; the other nodes stay as they are. */
  method TryNode(pools: seq<ConnectionPool>, a: Attempt) returns (r: Option<ExecResult>, ghost held: Option<Held>)
    requires ValidPools(pools) && NewTo(pools, a.world.created)
    requires a.node.Some? ==> a.node.value < |pools|
    modifies pools, AllQueues(pools)
    ensures ValidPools(pools)
    ensures a.node.None? ==> held.None?
    ensures if held.Some? then old(MayGet(pools, a)) else old(MayMiss(pools, a))
    ensures held.None? ==> r.None?
    ensures held.Some? ==> held.value.queue in AllQueues(pools) && Settles(a, held.value) && r == Answers(a)
    ensures forall q :: q in AllQueues(pools) ==> q.out == old(q.out) && old(q.closed) <= q.closed
    ensures forall c :: c != a.world.created && old(NewTo(pools, c)) ==> NewTo(pools, c)
    ensures forall q, c :: q in AllQueues(pools) && old(Knows(q.Books(), c)) ==> Knows(q.Books(), c)
  {
    hide AfterGet, Conserved, Knows, Share, Covers, PutBackTo;
    if a.node.None? {
      return None, None;
    }
    var n := a.node.value;
    var i;
    r, i, held := TryOnce(pools[n], a);
    forall q | q in AllQueues(pools) && q !in pools[n].queues ensures q.Books() == old(q.Books()) {
    }
  }

  /** Some queue of the node gives the attempt a connection. */
  ghost predicate MayGet(pools: seq<ConnectionPool>, a: Attempt)
    requires a.node.Some? ==> a.node.value < |pools|
    reads pools, AllQueues(pools)
  {
    && a.node.Some?
    && var queues := pools[a.node.value].queues;
       exists i :: 0 <= i < |queues| && AfterGet(queues[i].Books(), queues[i].capacity, a.world).1.Got?
  }

  /** There is no node for the attempt, or some queue of it gives it none. */
  ghost predicate MayMiss(pools: seq<ConnectionPool>, a: Attempt)
    requires a.node.Some? ==> a.node.value < |pools|
    reads pools, AllQueues(pools)
  {
    || a.node.None?
    || var queues := pools[a.node.value].queues;
       exists i :: 0 <= i < |queues| && !AfterGet(queues[i].Books(), queues[i].capacity, a.world).1.Got?
  }

  /** A connection that is given back as it should be. */
  ghost predicate Settles(a: Attempt, held: Held)
    reads held.queue
  {
    if a.prepared && a.timed && (!a.sent || a.parsed.OtherFailure?) then held.conn in held.queue.closed
    else PutBackTo(held.queue, held.conn)
  }

  /** What the caller is told about an attempt that had a connection, unless there is to be another one. */
  function Answers(a: Attempt): Option<ExecResult>
  {
    if a.prepared && a.timed && !a.sent then None
    else if a.prepared && a.timed && a.parsed.Success? then Some(Completed)
    else Some(Failed)
  }

  /** The connections that the world may open are all different and none is known. */
  ghost predicate FreshScript(pools: seq<ConnectionPool>, script: seq<Attempt>)
    reads AllQueues(pools)
  {
    && (forall i, j :: 0 <= i < j < |script| ==> script[i].world.created != script[j].world.created)
    && (forall i :: 0 <= i < |script| ==> NewTo(pools, script[i].world.created))
    && (forall i :: 0 <= i < |script| && script[i].node.Some? ==> script[i].node.value < |pools|)
  }

  /**
   The retry loop.  It makes at most one attempt more than there may be retries, it ends by then, and
   however it ends, exactly the connections are checked out that were before, and every connection that
   was known is still idle, checked out or closed.  `trace` is what each attempt held: the command completed or failed
   as its last attempt did, each earlier one that had a connection could not send, and no connection over
   which a command was not sent, or a reply was not read to its end, is ever used again.
   */
  method Execute(pools: seq<ConnectionPool>, maxRetries: Option<nat>, script: seq<Attempt>)
    returns (r: ExecResult, tries: nat, ghost trace: seq<Option<Held>>)
    requires ValidPools(pools) && FreshScript(pools, script)
    modifies pools, AllQueues(pools)
    ensures ValidPools(pools)
    ensures forall q :: q in AllQueues(pools) ==> q.out == old(q.out)
    ensures forall q, c :: q in AllQueues(pools) && old(Knows(q.Books(), c)) ==> Knows(q.Books(), c)
    ensures tries <= |script| && (maxRetries.Some? ==> tries <= maxRetries.value + 1)
    ensures r.StillRunning? ==> tries == |script| && (maxRetries.Some? ==> |script| <= maxRetries.value)
    ensures r.TooManyTries? ==> maxRetries.Some? && tries == maxRetries.value + 1
    ensures r.TimedOut? ==> tries < |script| && script[tries].late
    ensures |trace| == tries && forall i :: 0 <= i < tries ==> !script[i].late
    ensures tries > 0 ==> if trace[0].Some? then old(MayGet(pools, script[0])) else old(MayMiss(pools, script[0]))
    ensures r.Completed? <==>
              (tries > 0 && trace[tries - 1].Some?
               && var a := script[tries - 1]; a.prepared && a.timed && a.sent && a.parsed.Success?)
    ensures r.Failed? <==>
              (tries > 0 && trace[tries - 1].Some?
               && var a := script[tries - 1]; !a.prepared || !a.timed || (a.sent && !a.parsed.Success?))
    ensures forall i :: 0 <= i < tries - 1 && trace[i].Some? ==>
              script[i].prepared && script[i].timed && !script[i].sent
    ensures forall i :: 0 <= i < tries && trace[i].Some? ==> trace[i].value.queue in AllQueues(pools)
    ensures forall i :: 0 <= i < tries && trace[i].Some? ==>
              var a, h := script[i], trace[i].value;
              if a.prepared && a.timed && (!a.sent || a.parsed.OtherFailure?)
              then h.conn in h.queue.closed && h.conn !in h.queue.connections && h.conn !in h.queue.out
              else i == tries - 1 && PutBackTo(h.queue, h.conn)
  {
    hide Conserved, Knows, PutBackTo, MayGet, MayMiss, ValidPools, NewTo;
    ghost var gets, misses := script != [] && MayGet(pools, script[0]), script != [] && MayMiss(pools, script[0]);
    tries := 0;
    trace := [];
    var iterations := 0;
    while true
      invariant tries == iterations == |trace| <= |script|
      invariant maxRetries.Some? ==> iterations <= maxRetries.value + 1
      invariant ValidPools(pools)
      invariant forall q :: q in AllQueues(pools) ==> q.out == old(q.out)
      invariant forall q, c :: q in AllQueues(pools) && old(Knows(q.Books(), c)) ==> Knows(q.Books(), c)
      invariant forall k :: tries <= k < |script| ==> NewTo(pools, script[k].world.created)
      invariant forall i :: 0 <= i < tries ==> !script[i].late
      invariant forall i :: 0 <= i < tries && trace[i].Some? ==>
                  && script[i].prepared && script[i].timed && !script[i].sent
                  && trace[i].value.queue in AllQueues(pools) && trace[i].value.conn in trace[i].value.queue.closed
      invariant script == [] || (if tries == 0 then gets == MayGet(pools, script[0]) && misses == MayMiss(pools, script[0])
                                 else if trace[0].Some? then gets else misses)
      decreases |script| - iterations
    {
      iterations := iterations + 1;
      if maxRetries.Some? && iterations > maxRetries.value + 1 {
        ClosedAreGone(pools, trace);
        return TooManyTries, tries, trace;
      }
      if tries == |script| {
        ClosedAreGone(pools, trace);
        return StillRunning, tries, trace;
      }
      var a := script[tries];
      if a.late {
        ClosedAreGone(pools, trace);
        return TimedOut, tries, trace;
      }
      var result;
      ghost var held;
      result, held := TryNode(pools, a);
      tries := tries + 1;
      trace := trace + [held];
      if result.Some? {
        assert held.Some? && Settles(a, held.value);
        ClosedAreGone(pools, trace);
        return result.value, tries, trace;
      }
    }
  }

  /** A connection that is closed is neither idle nor checked out. */
  lemma ClosedAreGone(pools: seq<ConnectionPool>, trace: seq<Option<Held>>)
    requires ValidPools(pools)
    ensures forall i :: 0 <= i < |trace| && trace[i].Some? ==>
              var h := trace[i].value;
              h.queue in AllQueues(pools) && h.conn in h.queue.closed ==>
                h.conn !in h.queue.connections && h.conn !in h.queue.out
  {
    forall q, c | q in AllQueues(pools) && c in q.closed ensures c !in q.connections && c !in q.out {
      assert q.Valid();
    }
  }
}
