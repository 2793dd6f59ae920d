/**
 The books of a connection queue (src/net/connection_pool.rs): which connections are idle in the queue,
 which are checked out, which are closed, and the count that the queue keeps of the first two.
 */
module Accounts {

  type Connection = nat

  /** `num` is the count that the program keeps; the sets are what it should stand for. */
  datatype Account = Account(idle: seq<Connection>, num: int, out: set<Connection>, closed: set<Connection>)

  /** What the world decides during one get: which connections were idle for too long, and what succeeds. */
  datatype World = World(stale: set<Connection>, connects: bool, created: Connection, setsTimeout: bool)

  datatype GetResult = Got(conn: Connection) | NoMoreConnections | ConnectFailed | TimeoutFailed

  predicate Distinct(s: seq<Connection>)
  {
    forall i, j :: 0 <= i < j < |s| ==> s[i] != s[j]
  }

  /** Conservation: the count is right and in bounds, and every connection is in one place. */
  predicate Conserved(a: Account, capacity: nat)
  {
    && a.num == |a.idle| + |a.out| <= capacity
    && Distinct(a.idle)
    && (forall c :: c in a.idle ==> c !in a.out && c !in a.closed)
    && (forall c :: c in a.out ==> c !in a.closed)
    && (a.idle != [] ==> a.num < capacity)
  }

  predicate Knows(a: Account, c: Connection)
  {
    c in a.idle || c in a.out || c in a.closed
  }

  /** No connection appears or vanishes. */
  ghost predicate SameConnections(a: Account, b: Account)
  {
    forall c :: Knows(a, c) <==> Knows(b, c)
  }

  // ---------------------------------------------------------------------------------------------
  // The operations

  /** The reaping loop of get takes stale connections off the front. */
  function Reaped(a: Account, stale: set<Connection>): (r: Account)
    ensures r.idle != [] ==> r.idle[0] !in stale
    ensures r.out == a.out
    decreases |a.idle|
  {
    if a.idle != [] && a.idle[0] in stale
    then Reaped(a.(idle := a.idle[1..], num := a.num - 1, closed := a.closed + {a.idle[0]}), stale)
    else a
  }

  function Chosen(a: Account, capacity: nat, w: World): (r: (Account, GetResult))
  {
    if a.idle != [] then (a.(idle := a.idle[1..]), Got(a.idle[0]))
    else if a.num >= capacity then (a, NoMoreConnections)
    else if !w.connects then (a, ConnectFailed)
    else (a.(num := a.num + 1), Got(w.created))
  }

  function AfterGet(a: Account, capacity: nat, w: World): (Account, GetResult)
  {
    var (b, r) := Chosen(Reaped(a, w.stale), capacity, w);
    if !r.Got? then (b, r)
    else if w.setsTimeout then (b.(out := b.out + {r.conn}), r)
    else (b.(num := b.num - 1, closed := b.closed + {r.conn}), TimeoutFailed)
  }

  function AfterPutBack(a: Account, capacity: nat, c: Connection): Account
  {
    if a.num < capacity then a.(idle := a.idle + [c], out := a.out - {c})
    else a.(num := a.num - 1, out := a.out - {c}, closed := a.closed + {c})
  }

  function AfterDrop(a: Account, c: Connection): Account
  {
    a.(num := a.num - 1, out := a.out - {c}, closed := a.closed + {c})
  }

  function AfterClear(a: Account): Account
  {
    a.(idle := [], num := 0, closed := a.closed + (set c | c in a.idle))
  }

  // ---------------------------------------------------------------------------------------------
  // What they keep

  lemma FrontIsDistinct(s: seq<Connection>)
    requires s != [] && Distinct(s)
    ensures s[0] !in s[1..] && Distinct(s[1..])
    ensures forall c :: c in s <==> c == s[0] || c in s[1..]
  {
    assert s == [s[0]] + s[1..];
  }

  lemma ReapFront(a: Account, capacity: nat)
    requires Conserved(a, capacity) && a.idle != []
    ensures var b := a.(idle := a.idle[1..], num := a.num - 1, closed := a.closed + {a.idle[0]});
      Conserved(b, capacity) && SameConnections(a, b) && b.num < capacity
  {
    FrontIsDistinct(a.idle);
  }

  lemma {:induction false} ReapedConserves(a: Account, capacity: nat, stale: set<Connection>)
    requires Conserved(a, capacity)
    ensures Conserved(Reaped(a, stale), capacity) && SameConnections(a, Reaped(a, stale))
    ensures Reaped(a, stale) == a || Reaped(a, stale).num < capacity
    decreases |a.idle|
  {
    hide Conserved, Knows;
    if a.idle != [] && a.idle[0] in stale {
      ReapFront(a, capacity);
      ReapedConserves(a.(idle := a.idle[1..], num := a.num - 1, closed := a.closed + {a.idle[0]}), capacity, stale);
    }
  }

  lemma ChosenConserves(a: Account, capacity: nat, w: World)
    requires Conserved(a, capacity) && !Knows(a, w.created)
    requires Chosen(a, capacity, w).1.Got?
    ensures var (b, r) := Chosen(a, capacity, w);
      && !(r.conn in a.out || r.conn in a.closed || r.conn in b.idle)
      && Distinct(b.idle) && (forall c :: c in b.idle ==> c in a.idle)
      && b.out == a.out && b.closed == a.closed
      && b.num == |b.idle| + |b.out| + 1 <= capacity && (b.idle != [] ==> b.num < capacity)
      && (forall c :: c in b.idle || c == r.conn ==> Knows(a, c) || c == w.created)
      && (forall c :: c in a.idle ==> c in b.idle || c == r.conn)
  {
    if a.idle != [] {
      FrontIsDistinct(a.idle);
    }
  }

  lemma GetConserves(a: Account, capacity: nat, w: World)
    requires Conserved(a, capacity) && !Knows(a, w.created)
    ensures var (b, r) := AfterGet(a, capacity, w);
      && Conserved(b, capacity)
      && b.out == a.out + (if r.Got? then {r.conn} else {})
      && (r.Got? ==> r.conn !in a.out)
      && (forall c :: Knows(b, c) ==> Knows(a, c) || c == w.created)
      && (forall c :: Knows(a, c) ==> Knows(b, c))
  {
    hide Reaped, Chosen, Conserved;
    var b := Reaped(a, w.stale);
    ReapedConserves(a, capacity, w.stale);
    if Chosen(b, capacity, w).1.Got? {
      SettledConserves(b, capacity, w);
    } else {
      NotChosen(b, capacity, w);
    }
  }

  /** The end of get, when it has a connection. */
  lemma SettledConserves(a: Account, capacity: nat, w: World)
    requires Conserved(a, capacity) && !Knows(a, w.created)
    requires Chosen(a, capacity, w).1.Got?
    ensures var (b, r) := Chosen(a, capacity, w);
      && r.conn !in a.out && b.out == a.out
      && Conserved(b.(out := b.out + {r.conn}), capacity)
      && Conserved(b.(num := b.num - 1, closed := b.closed + {r.conn}), capacity)
      && (forall c :: Knows(b, c) || c == r.conn ==> Knows(a, c) || c == w.created)
      && (forall c :: Knows(a, c) ==> Knows(b, c) || c == r.conn)
  {
    hide Chosen, Distinct;
    ChosenConserves(a, capacity, w);
  }

  lemma NotChosen(a: Account, capacity: nat, w: World)
    requires !Chosen(a, capacity, w).1.Got?
    ensures Chosen(a, capacity, w).0 == a
  {
  }

  lemma PutBackConserves(a: Account, capacity: nat, c: Connection)
    requires Conserved(a, capacity) && c in a.out
    ensures Conserved(AfterPutBack(a, capacity, c), capacity)
    ensures SameConnections(a, AfterPutBack(a, capacity, c))
  {
    if a.num >= capacity {
      DropConserves(a, capacity, c);
    }
  }

  lemma DropConserves(a: Account, capacity: nat, c: Connection)
    requires Conserved(a, capacity) && c in a.out
    ensures Conserved(AfterDrop(a, c), capacity)
    ensures SameConnections(a, AfterDrop(a, c))
  {
    hide Distinct;
  }

  /** clear sets the count to 0, which is right exactly if nothing is checked out. */
  lemma ClearConservesExactly(a: Account, capacity: nat)
    requires Conserved(a, capacity)
    ensures Conserved(AfterClear(a), capacity) <==> a.out == {}
  {
  }

  lemma CountIsRight(a: Account, capacity: nat)
    requires Conserved(a, capacity)
    ensures a.num == |a.idle| + |a.out| <= capacity
  {
  }

  /** A connection that is put back stays open exactly if the queue is not full. */
  lemma KeptExactly(a: Account, capacity: nat, c: Connection)
    requires Conserved(a, capacity) && c in a.out
    ensures c in AfterPutBack(a, capacity, c).idle <==> |a.idle| + |a.out| < capacity
    ensures c in AfterPutBack(a, capacity, c).closed <==> |a.idle| + |a.out| == capacity
  {
    assert c !in a.idle;
  }

  /** get finds no connection exactly if all of them are checked out, and then it changes nothing. */
  lemma NoMoreExactly(a: Account, capacity: nat, w: World)
    requires Conserved(a, capacity)
    ensures AfterGet(a, capacity, w).1.NoMoreConnections? <==> |a.out| == capacity
    ensures AfterGet(a, capacity, w).1.NoMoreConnections? ==> AfterGet(a, capacity, w).0 == a
  {
    ReapedConserves(a, capacity, w.stale);
  }

  // ---------------------------------------------------------------------------------------------
  // Which connection it is

  /** Connection `i` of the queue is the first that was not idle for too long. */
  predicate FirstUsable(idle: seq<Connection>, stale: set<Connection>, i: int)
    requires 0 <= i < |idle|
  {
    idle[i] !in stale && forall j :: 0 <= j < i ==> idle[j] in stale
  }

  predicate AllStale(idle: seq<Connection>, stale: set<Connection>)
  {
    forall j :: 0 <= j < |idle| ==> idle[j] in stale
  }

  function Members(s: seq<Connection>): set<Connection>
  {
    set c | c in s
  }

  lemma {:induction false} ReapedUpTo(a: Account, stale: set<Connection>, i: nat)
    requires i <= |a.idle| && (forall j :: 0 <= j < i ==> a.idle[j] in stale) && (i < |a.idle| ==> a.idle[i] !in stale)
    ensures var r := Reaped(a, stale);
      r.idle == a.idle[i..] && r.num == a.num - i && r.closed == a.closed + Members(a.idle[..i])
    decreases |a.idle|
  {
    hide Members;
    if i == 0 {
      assert a.idle[..0] == [] && Members([]) == {} by {
        NoMembers();
      }
    } else {
      var b := a.(idle := a.idle[1..], num := a.num - 1, closed := a.closed + {a.idle[0]});
      ReapedUpTo(b, stale, i - 1);
      FrontMembers(a.idle, i);
    }
  }

  lemma NoMembers()
    ensures Members([]) == {}
  {
  }

  lemma FrontMembers(s: seq<Connection>, i: nat)
    requires 0 < i <= |s|
    ensures Members(s[..i]) == {s[0]} + Members(s[1..][..i - 1])
  {
    assert s[..i] == [s[0]] + s[1..][..i - 1];
  }

  /** get takes the first connection that was not idle for too long, and closes those in front of it. */
  lemma TakesFirstUsable(a: Account, capacity: nat, w: World, i: nat)
    requires i < |a.idle| && FirstUsable(a.idle, w.stale, i)
    ensures var (b, r) := AfterGet(a, capacity, w);
      && r == (if w.setsTimeout then Got(a.idle[i]) else TimeoutFailed)
      && b.idle == a.idle[i + 1..]
      && (forall j :: 0 <= j < i ==> a.idle[j] in b.closed)
      && (w.setsTimeout ==> a.idle[i] in b.out) && (!w.setsTimeout ==> a.idle[i] in b.closed)
  {
    hide Reaped;
    ReapedUpTo(a, w.stale, i);
    assert forall j :: 0 <= j < i ==> a.idle[j] in a.idle[..i];
  }

  /** If there is none, all are closed, and a new connection is made unless as many as there may be are checked out. */
  lemma MakesNewOne(a: Account, capacity: nat, w: World)
    requires Conserved(a, capacity) && AllStale(a.idle, w.stale)
    ensures var (b, r) := AfterGet(a, capacity, w);
      && r == (if |a.out| == capacity then NoMoreConnections else if !w.connects then ConnectFailed
               else if !w.setsTimeout then TimeoutFailed else Got(w.created))
      && b.idle == [] && forall j :: 0 <= j < |a.idle| ==> a.idle[j] in b.closed
  {
    hide Reaped;
    ReapedUpTo(a, w.stale, |a.idle|);
    assert a.idle[..|a.idle|] == a.idle;
    assert forall j :: 0 <= j < |a.idle| ==> a.idle[j] in a.idle;
  }

  /**
   What get should do, in terms of what was idle before: `r` and the books `b` are those of taking the first usable
   connection, or, if there is none, of making a new one unless as many as there may be are checked out.
   */
  ghost predicate TakesInOrder(a: Account, capacity: nat, w: World, b: Account, r: GetResult)
  {
    && (forall i :: 0 <= i < |a.idle| && FirstUsable(a.idle, w.stale, i) ==>
          && r == (if w.setsTimeout then Got(a.idle[i]) else TimeoutFailed)
          && b.idle == a.idle[i + 1..]
          && forall j :: 0 <= j < i ==> a.idle[j] in b.closed)
    && (AllStale(a.idle, w.stale) ==>
          && r == (if |a.out| == capacity then NoMoreConnections else if !w.connects then ConnectFailed
                   else if !w.setsTimeout then TimeoutFailed else Got(w.created))
          && b.idle == [] && forall j :: 0 <= j < |a.idle| ==> a.idle[j] in b.closed)
  }

  lemma GetTakesInOrder(a: Account, capacity: nat, w: World)
    requires Conserved(a, capacity)
    ensures TakesInOrder(a, capacity, w, AfterGet(a, capacity, w).0, AfterGet(a, capacity, w).1)
  {
    hide Conserved, AfterGet, FirstUsable, AllStale;
    forall i | 0 <= i < |a.idle| && FirstUsable(a.idle, w.stale, i)
      ensures var (b, r) := AfterGet(a, capacity, w);
        && r == (if w.setsTimeout then Got(a.idle[i]) else TimeoutFailed)
        && b.idle == a.idle[i + 1..]
        && forall j :: 0 <= j < i ==> a.idle[j] in b.closed
    {
      TakesFirstUsable(a, capacity, w, i);
    }
    if AllStale(a.idle, w.stale) {
      MakesNewOne(a, capacity, w);
    }
  }

  lemma ClosedStayClosed(a: Account, capacity: nat, w: World)
    ensures a.closed <= AfterGet(a, capacity, w).0.closed
  {
    hide Reaped;
    ReapedKeepsClosed(a, w.stale);
  }

  lemma {:induction false} ReapedKeepsClosed(a: Account, stale: set<Connection>)
    ensures a.closed <= Reaped(a, stale).closed
    decreases |a.idle|
  {
    if a.idle != [] && a.idle[0] in stale {
      ReapedKeepsClosed(a.(idle := a.idle[1..], num := a.num - 1, closed := a.closed + {a.idle[0]}), stale);
    }
  }

  // ---------------------------------------------------------------------------------------------
  // Over whole runs

  datatype Op = Get(w: World) | PutBack(c: Connection) | Drop(c: Connection)

  /** Only what is checked out can be given back, and a new connection is new. */
  predicate Allowed(a: Account, op: Op)
  {
    match op
    case Get(w) => !Knows(a, w.created)
    case PutBack(c) => c in a.out
    case Drop(c) => c in a.out
  }

  function Apply(a: Account, capacity: nat, op: Op): Account
  {
    match op
    case Get(w) => AfterGet(a, capacity, w).0
    case PutBack(c) => AfterPutBack(a, capacity, c)
    case Drop(c) => AfterDrop(a, c)
  }

  predicate AllAllowed(a: Account, capacity: nat, ops: seq<Op>)
    decreases |ops|
  {
    ops == [] || (Allowed(a, ops[0]) && AllAllowed(Apply(a, capacity, ops[0]), capacity, ops[1..]))
  }

  function ApplyAll(a: Account, capacity: nat, ops: seq<Op>): Account
    decreases |ops|
  {
    if ops == [] then a else ApplyAll(Apply(a, capacity, ops[0]), capacity, ops[1..])
  }

  const NEW := Account([], 0, {}, {})

  /** Whatever is done with a queue, its count is what is idle and what is checked out, within the capacity. */
  lemma {:induction false} RunConserves(a: Account, capacity: nat, ops: seq<Op>)
    requires Conserved(a, capacity) && AllAllowed(a, capacity, ops)
    ensures Conserved(ApplyAll(a, capacity, ops), capacity)
    decreases |ops|
  {
    hide Conserved, AfterPutBack, AfterDrop, Knows;
    if ops != [] {
      match ops[0] {
        case Get(w) => GetConserves(a, capacity, w);
        case PutBack(c) => PutBackConserves(a, capacity, c);
        case Drop(c) => DropConserves(a, capacity, c);
      }
      RunConserves(Apply(a, capacity, ops[0]), capacity, ops[1..]);
    }
  }

  /** A queue never keeps as many idle connections as it may have: with a capacity of 1 it keeps none. */
  lemma IdleBelowCapacity(capacity: nat, ops: seq<Op>)
    requires AllAllowed(NEW, capacity, ops)
    ensures var a := ApplyAll(NEW, capacity, ops);
      && a.num == |a.idle| + |a.out| <= capacity
      && |a.idle| <= (if capacity > 0 then capacity - 1 else 0)
  {
    RunConserves(NEW, capacity, ops);
  }
}
