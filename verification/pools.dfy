/**
 Connection queues, the pool of a node that spreads its connections over several of them, and the
 handle of a connection that is checked out (src/net/connection_pool.rs).
 */
module Pools {
  import opened Options
  import opened Accounts
  import opened RoundRobin

  /** The counter of a pool is a machine word that wraps around. */
  const WORD := 0x1_0000_0000_0000_0000

  class Queue {
    const capacity: nat
    var connections: seq<Connection>
    var numConns: int
    ghost var out: set<Connection>
    ghost var closed: set<Connection>

    constructor (capacity: nat)
      ensures this.capacity == capacity && Books() == NEW && Valid()
    {
      this.capacity := capacity;
      connections, numConns, out, closed := [], 0, {}, {};
    }

    ghost function Books(): Account
      reads this
    {
      Account(connections, numConns, out, closed)
    }

    ghost predicate Valid()
      reads this
    {
      Conserved(Books(), capacity)
    }

    ghost predicate Full()
      reads this
    {
      |out| == capacity
    }

    method Get(w: World) returns (r: GetResult)
      requires Valid() && !Knows(Books(), w.created)
      modifies this
      ensures (Books(), r) == AfterGet(old(Books()), capacity, w)
      ensures Valid()
      ensures out == old(out) + if r.Got? then {r.conn} else {}
      ensures r.Got? ==> r.conn !in old(out)
      ensures forall c :: Knows(Books(), c) ==> old(Knows(Books(), c)) || c == w.created
      ensures forall c :: old(Knows(Books(), c)) ==> Knows(Books(), c)
      ensures r.NoMoreConnections? <==> old(Full())
      ensures r.NoMoreConnections? ==> Books() == old(Books())
      ensures TakesInOrder(old(Books()), capacity, w, Books(), r)
    {
      hide Conserved, Knows, TakesInOrder;
      GetTakesInOrder(Books(), capacity, w);
      GetConserves(Books(), capacity, w);
      NoMoreExactly(Books(), capacity, w);
      ghost var start := Books();
      while connections != [] && connections[0] in w.stale
        invariant Reaped(Books(), w.stale) == Reaped(start, w.stale)
        decreases |connections|
      {
        numConns := numConns - 1;
        closed := closed + {connections[0]};
        connections := connections[1..];
      }
      var conn;
      if connections != [] {
        conn, connections := connections[0], connections[1..];
      } else {
        if numConns >= capacity {
          return NoMoreConnections;
        }
        if !w.connects {
          return ConnectFailed;
        }
        numConns := numConns + 1;
        conn := w.created;
      }
      if !w.setsTimeout {
        numConns := numConns - 1;
        closed := closed + {conn};
        return TimeoutFailed;
      }
      out := out + {conn};
      return Got(conn);
    }

    method PutBack(conn: Connection)
      requires Valid() && conn in out
      modifies this
      ensures Books() == AfterPutBack(old(Books()), capacity, conn) && Valid()
      ensures SameConnections(old(Books()), Books())
      ensures old(|connections| + |out|) < capacity ==> connections == old(connections) + [conn]
      ensures old(|connections| + |out|) == capacity ==> connections == old(connections) && conn in closed
    {
      CountIsRight(Books(), capacity);
      hide Conserved;
      PutBackConserves(Books(), capacity, conn);
      out := out - {conn};
      if numConns < capacity {
        connections := connections + [conn];
      } else {
        closed := closed + {conn};
        numConns := numConns - 1;
      }
    }

    method DropConn(conn: Connection)
      requires Valid() && conn in out
      modifies this
      ensures Books() == AfterDrop(old(Books()), conn) && Valid()
      ensures SameConnections(old(Books()), Books())
      ensures connections == old(connections) && out == old(out) - {conn} && closed == old(closed) + {conn}
    {
      hide Conserved;
      DropConserves(Books(), capacity, conn);
      out := out - {conn};
      numConns := numConns - 1;
      closed := closed + {conn};
    }

    method Clear()
      requires Valid()
      modifies this
      ensures Books() == AfterClear(old(Books()))
      ensures Valid() <==> old(out) == {}
    {
      hide Conserved;
      ClearConservesExactly(Books(), capacity);
      closed := closed + (set c | c in connections);
      connections := [];
      numConns := 0;
    }
  }

  /** Rust drops a handle when it leaves its scope, unless `Invalidate` has consumed it: then it is empty. */
  class PooledConnection {
    const queue: Queue
    var conn: Option<Connection>

    constructor (queue: Queue, conn: Connection)
      ensures this.queue == queue && this.conn == Some(conn)
    {
      this.queue := queue;
      this.conn := Some(conn);
    }

    ghost predicate Valid()
      reads this, queue
    {
      queue.Valid() && (conn.Some? ==> conn.value in queue.out)
    }

    method Invalidate()
      requires Valid() && conn.Some?
      modifies this, queue
      ensures queue.Books() == AfterDrop(old(queue.Books()), old(conn).value)
      ensures Valid() && conn.None? && SameConnections(old(queue.Books()), queue.Books())
    {
      var c := conn.value;
      conn := None;
      queue.DropConn(c);
      Drop();
    }

    method Drop()
      requires Valid()
      modifies this, queue
      ensures queue.Books() == if old(conn).Some? then AfterPutBack(old(queue.Books()), queue.capacity, old(conn).value)
                               else old(queue.Books())
      ensures Valid() && conn.None? && SameConnections(old(queue.Books()), queue.Books())
    {
      if conn.Some? {
        var c := conn.value;
        conn := None;
        queue.PutBack(c);
      }
    }
  }

  // ---------------------------------------------------------------------------------------------
  // The pool of a node

  /** The shares of `total` connections: the first queues take one of the remainder each. */
  function Share(total: nat, n: nat, i: nat): nat
    requires n > 0
  {
    total / n + if i < total % n then 1 else 0
  }

  function SumOf(s: seq<nat>): nat
  {
    if s == [] then 0 else SumOf(s[..|s| - 1]) + s[|s| - 1]
  }

  function Shares(total: nat, n: nat): (s: seq<nat>)
    requires n > 0
    ensures |s| == n
  {
    seq(n, i requires 0 <= i < n => Share(total, n, i))
  }

  lemma {:induction false} SharesUpTo(total: nat, n: nat, i: nat)
    requires n > 0 && i <= n
    ensures SumOf(Shares(total, n)[..i]) == (total / n) * i + if i < total % n then i else total % n
  {
    if i == 0 {
      assert Shares(total, n)[..0] == [];
    } else {
      SharesUpTo(total, n, i - 1);
      assert Shares(total, n)[..i][..i - 1] == Shares(total, n)[..i - 1];
      assert (total / n) * i == (total / n) * (i - 1) + total / n;
    }
  }

  /** The shares add up to the whole, differ by at most one, and the larger ones come first. */
  lemma SharesAddUp(total: nat, n: nat)
    requires n > 0
    ensures SumOf(Shares(total, n)) == total
    ensures forall i, j :: 0 <= i < n && 0 <= j < n ==> Shares(total, n)[i] <= Shares(total, n)[j] + 1
    ensures forall i, j :: 0 <= i < j < n ==> Shares(total, n)[i] >= Shares(total, n)[j]
  {
    SharesUpTo(total, n, n);
    assert Shares(total, n)[..n] == Shares(total, n);
    assert (total / n) * n + total % n == total;
  }

  ghost function Fullness(queues: seq<Queue>): (full: seq<bool>)
    reads queues
    ensures |full| == |queues| && forall i :: 0 <= i < |queues| ==> full[i] == queues[i].Full()
  {
    if queues == [] then [] else Fullness(queues[..|queues| - 1]) + [queues[|queues| - 1].Full()]
  }

  ghost function TotalConns(queues: seq<Queue>): int
    reads queues
  {
    if queues == [] then 0 else TotalConns(queues[..|queues| - 1]) + queues[|queues| - 1].numConns
  }

  lemma {:induction false} CountsBounded(queues: seq<Queue>, shares: seq<nat>)
    requires |queues| == |shares|
    requires forall i :: 0 <= i < |queues| ==> queues[i].Valid() && queues[i].capacity == shares[i]
    ensures TotalConns(queues) <= SumOf(shares)
  {
    if queues != [] {
      CountsBounded(queues[..|queues| - 1], shares[..|shares| - 1]);
    }
  }

  method InitializeQueues(numConns: nat, numQueues: nat) returns (queues: seq<Queue>)
    requires numQueues > 0
    ensures |queues| == numQueues && DistinctQueues(queues)
    ensures forall q :: q in queues ==> fresh(q) && q.Valid() && q.Books() == NEW
    ensures forall i :: 0 <= i < numQueues ==> queues[i].capacity == Share(numConns, numQueues, i)
  {
    var max := numConns / numQueues;
    var rem := numConns % numQueues;
    queues := [];
    for i := 0 to numQueues
      invariant |queues| == i && DistinctQueues(queues)
      invariant forall q :: q in queues ==> fresh(q) && q.Valid() && q.Books() == NEW
      invariant forall j :: 0 <= j < i ==> queues[j].capacity == Share(numConns, numQueues, j)
      invariant rem == if i < numConns % numQueues then numConns % numQueues - i else 0
    {
      var capacity := max;
      if rem > 0 {
        capacity := capacity + 1;
        rem := rem - 1;
      }
      var q := new Queue(capacity);
      queues := queues + [q];
    }
  }

  ghost predicate DistinctQueues(queues: seq<Queue>)
  {
    forall i, j :: 0 <= i < j < |queues| ==> queues[i] != queues[j]
  }

  class ConnectionPool {
    const numQueues: nat
    const queues: seq<Queue>
    const maxConns: nat
    var queueCounter: nat

    constructor (maxConns: nat, numQueues: nat)
      requires 0 < numQueues < WORD
      ensures Valid() && this.numQueues == numQueues && this.maxConns == maxConns
      ensures forall q :: q in queues ==> fresh(q) && q.Books() == NEW
    {
      var qs := InitializeQueues(maxConns, numQueues);
      this.numQueues, this.maxConns, queues, queueCounter := numQueues, maxConns, qs, 0;
    }

    ghost predicate Valid()
      reads this, queues
    {
      && 0 < numQueues == |queues| < WORD && queueCounter < WORD
      && DistinctQueues(queues)
      && (forall q :: q in queues ==> q.Valid())
      && (forall i :: 0 <= i < |queues| ==> queues[i].capacity == Share(maxConns, numQueues, i))
    }

    ghost predicate AllFull()
      reads queues
    {
      forall i :: 0 <= i < |queues| ==> queues[i].Full()
    }

    /** All queues together never hold more connections than the node may have. */
    lemma BoundedByNode()
      requires Valid()
      ensures TotalConns(queues) <= maxConns
    {
      SharesAddUp(maxConns, numQueues);
      CountsBounded(queues, Shares(maxConns, numQueues));
    }

    method AskQueue(w: World, i: nat) returns (r: GetResult)
      requires Valid() && i < numQueues && !Knows(queues[i].Books(), w.created)
      modifies queues
      ensures Valid()
      ensures (queues[i].Books(), r) == AfterGet(old(queues[i].Books()), queues[i].capacity, w)
      ensures forall j :: 0 <= j < numQueues && j != i ==> queues[j].Books() == old(queues[j].Books())
      ensures queues[i].out == old(queues[i].out) + if r.Got? then {r.conn} else {}
      ensures r.Got? ==> r.conn !in old(queues[i].out)
      ensures forall c :: Knows(queues[i].Books(), c) ==> old(Knows(queues[i].Books(), c)) || c == w.created
      ensures forall c :: old(Knows(queues[i].Books(), c)) ==> Knows(queues[i].Books(), c)
      ensures r.NoMoreConnections? <==> old(queues[i].Full())
      ensures r.NoMoreConnections? ==> queues[i].Books() == old(queues[i].Books())
    {
      hide Conserved, Knows, AfterGet, Share;
      r := queues[i].Get(w);
    }

    /**
     Asks one queue after the other until one has a connection or fails for another reason; `k` counts the
     queues that were asked before.  It finds no connection exactly if all attempts meet full queues, and these
     are all queues exactly if the counter covers all.
     */
    method Get(w: World) returns (r: GetResult, i: nat, ghost k: nat)
      requires Valid() && forall q :: q in queues ==> !Knows(q.Books(), w.created)
      modifies `queueCounter, queues
      ensures Valid() && i < numQueues
      ensures (queues[i].Books(), r) == AfterGet(old(queues[i].Books()), queues[i].capacity, w)
      ensures forall j :: 0 <= j < numQueues && j != i ==> queues[j].Books() == old(queues[j].Books())
      ensures r.Got? ==> queues[i].out == old(queues[i].out) + {r.conn} && r.conn !in old(queues[i].out)
      ensures !r.Got? ==> queues[i].out == old(queues[i].out)
      ensures forall c :: Knows(queues[i].Books(), c) ==> old(Knows(queues[i].Books(), c)) || c == w.created
      ensures forall c :: old(Knows(queues[i].Books(), c)) ==> Knows(queues[i].Books(), c)
      ensures k < numQueues && i == Visited(old(queueCounter), k, numQueues, WORD)
      ensures i == ((old(queueCounter) + k) % 0x1_0000_0000_0000_0000) % numQueues
      ensures queueCounter == if numQueues == 1 then old(queueCounter)
                              else (old(queueCounter) + k + 1) % 0x1_0000_0000_0000_0000
      ensures AskedFull(old(Fullness(queues)), old(queueCounter), k)
      ensures r.NoMoreConnections? <==> AskedFull(old(Fullness(queues)), old(queueCounter), numQueues)
      ensures r.NoMoreConnections? && Covers(old(queueCounter), numQueues, WORD) ==> old(AllFull())
    {
      hide Conserved, Knows, AfterGet, Share, Visited, Covers, Fullness, AskedFull, Place, Next, Count;
      ghost var start, full := queueCounter, Fullness(queues);
      NoneAsked(full, start);
      if numQueues == 1 {
        OnlyQueue(start);
        r := AskQueue(w, 0);
        AskedAll(full, start, 0);
        VisitedIs(start, 0, 1);
        return r, 0, 0;
      }
      CountStart(start);
      var attempts := numQueues;
      k := 0;
      while true
        invariant 0 < attempts == numQueues - k && Valid()
        invariant queueCounter == Count(start, k) && AskedFull(full, start, k)
        invariant forall j :: 0 <= j < numQueues ==> queues[j].Books() == old(queues[j].Books())
        decreases attempts
      {
        i := Place(queueCounter, numQueues);
        NextCount(start, k, numQueues);
        queueCounter := Next(queueCounter);
        r := AskQueue(w, i);
        attempts := attempts - 1;
        if !r.NoMoreConnections? || attempts == 0 {
          AskedAll(full, start, k);
          VisitedIs(start, k, numQueues);
          return;
        }
        AskedNext(full, start, k);
        k := k + 1;
      }
    }
  }

  /** The first `n` attempts meet full queues. */
  ghost predicate AskedFull(full: seq<bool>, start: nat, n: nat)
    requires |full| > 0
  {
    forall k: nat :: k < n ==> full[Visited(start, k, |full|, WORD)]
  }

  lemma NoneAsked(full: seq<bool>, start: nat)
    requires |full| > 0
    ensures AskedFull(full, start, 0)
  {
  }

  lemma AskedNext(full: seq<bool>, start: nat, k: nat)
    requires |full| > 0 && AskedFull(full, start, k)
    ensures AskedFull(full, start, k + 1) <==> full[Visited(start, k, |full|, WORD)]
  {
    hide Visited;
  }

  /** The search ends at a queue that is not full, or after the last attempt. */
  lemma AskedAll(full: seq<bool>, start: nat, k: nat)
    requires k < |full| && AskedFull(full, start, k)
    requires full[Visited(start, k, |full|, WORD)] ==> k + 1 == |full|
    ensures AskedFull(full, start, |full|) <==> full[Visited(start, k, |full|, WORD)]
    ensures AskedFull(full, start, |full|) && Covers(start, |full|, WORD) ==> forall i :: 0 <= i < |full| ==> full[i]
  {
    hide Visited;
    AskedNext(full, start, k);
    if AskedFull(full, start, |full|) && Covers(start, |full|, WORD) {
      forall i: nat | i < |full| ensures full[i] {
        assert Visits(start, |full|, WORD, i);
      }
    }
  }

  ghost predicate FailsWithRoom(full: seq<bool>, start: nat)
    requires |full| > 0
  {
    AskedFull(full, start, |full|) && exists i :: 0 <= i < |full| && !full[i]
  }

  /**
   Some state of the queues makes the search fail although a queue has room, exactly if the counter wraps
   around on the way and the number of queues does not divide its range.
   */
  lemma SearchMissesExactly(start: nat, n: nat)
    requires 0 < n < WORD && start < WORD
    ensures (exists full: seq<bool> :: |full| == n && FailsWithRoom(full, start)) <==> start + n > WORD && WORD % n != 0
  {
    hide Visited;
    CoversExactly(start, n, WORD);
    if start + n > WORD && WORD % n != 0 {
      var i: nat :| i < n && !Visits(start, n, WORD, i);
      var full := seq(n, j => j != i);
      assert !full[i];
      forall k: nat | k < n ensures full[Visited(start, k, n, WORD)] {
        assert Visited(start, k, n, WORD) != i;
      }
      assert FailsWithRoom(full, start);
    } else {
      forall full: seq<bool> | |full| == n && AskedFull(full, start, n) ensures !FailsWithRoom(full, start) {
        AskedAll(full, start, n - 1);
      }
    }
  }

  lemma OnlyQueue(start: nat)
    ensures Visited(start, 0, 1, WORD) == 0
  {
  }

  /** The queue a count stands for, the count after a fetch_add, and the count after `k` of them. */
  function Place(counter: nat, n: nat): (i: nat)
    requires n > 0
    ensures i < n
  {
    counter % n
  }

  function Next(counter: nat): (c: nat)
    ensures c < WORD
  {
    (counter + 1) % WORD
  }

  function Count(start: nat, k: nat): nat
  {
    (start + k) % WORD
  }

  lemma CountStart(start: nat)
    requires start < WORD
    ensures Count(start, 0) == start
  {
  }

  /** In plain arithmetic: attempt `k` is at the word that is `k` counts further, modulo the number of queues. */
  lemma VisitedIs(start: nat, k: nat, n: nat)
    requires n > 0
    ensures Visited(start, k, n, WORD) == ((start + k) % 0x1_0000_0000_0000_0000) % n
    ensures Count(start, k + 1) == (start + k + 1) % 0x1_0000_0000_0000_0000
  {
  }

  lemma NextCount(start: nat, k: nat, n: nat)
    requires n > 0
    ensures Next(Count(start, k)) == Count(start, k + 1)
    ensures Place(Count(start, k), n) == Visited(start, k, n, WORD)
  {
  }
}
