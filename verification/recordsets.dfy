/**
 The record queue between the threads of a scan or query and the readers of its results
 (src/query/recordset.rs, src/commands/stream_command.rs), as a state machine: each atomic operation
 of a thread is one step, and the steps of any number of producers and consumers interleave freely.
 */
module Recordsets {
  import opened Options
  import opened Bytes
  import opened Values

  datatype Record = Record(digest: bytes, bins: map<bytes, Datum>, generation: u32, expiration: u32)

  /** What producer `from` puts on the queue. */
  datatype Item = Found(from: nat, record: Record) | Failed(from: nat)

  /** What a producer does next. */
  datatype Producer =
    | Reading               // between records: sees whether the recordset is active
    | Parsing               // saw that it is: reads from the connection
    | Holding(item: Item)   // push: adds one to the count and compares
    | Reserved(item: Item)  // push: the count was low enough, so it queues the item
    | Rejected(item: Item)  // push: the count was too high, so it takes its one back
    | Ending                // the command is dropped: signal_end
    | Last                  // signal_end: no other producer is left, so it closes
    | Ended

  datatype Consumer =
    | Looking               // next: sees whether the recordset is active
    | Checking              // it is not: sees whether the queue is empty
    | Popping               // it is active or not empty: takes an item, or looks again
    | Popped(item: Item)    // has an item: takes one off the count and returns it
    | Finished              // next has returned None

  datatype State = State(
    size: nat,
    count: int,
    instances: int,
    active: bool,
    queue: seq<Item>,
    producers: seq<Producer>,
    consumers: seq<Consumer>,
    // history
    closedByUser: bool,
    parsed: seq<seq<Record>>,
    taken: seq<Item>,
    delivered: multiset<Item>)

  /** What a producer finds on its connection. */
  datatype Input = Next(record: Record) | Broken | Skipped | Done

  datatype Step =
    | See(i: nat)
    | Parse(i: nat, input: Input)
    | Stop(i: nat)
    | Add(i: nat)
    | Push(i: nat)
    | Undo(i: nat)
    | Signal(i: nat)
    | Close(i: nat)
    | UserClose
    | Look(j: nat)
    | IsEmpty(j: nat)
    | Pop(j: nat)
    | Return(j: nat)

  function Initial(size: nat, nodes: nat, readers: nat): State
  {
    State(size, 0, nodes, true, [], seq(nodes, _ => Reading), seq(readers, _ => Looking),
          false, seq(nodes, _ => []), [], multiset{})
  }

  ghost predicate Enabled(s: State, e: Step)
  {
    match e
    case See(i) => i < |s.producers| && s.producers[i].Reading?
    case Parse(i, _) => i < |s.producers| && i < |s.parsed| && s.producers[i].Parsing?
    case Stop(i) => i < |s.producers| && s.producers[i].Reading?
    case Add(i) => i < |s.producers| && s.producers[i].Holding?
    case Push(i) => i < |s.producers| && s.producers[i].Reserved?
    case Undo(i) => i < |s.producers| && s.producers[i].Rejected?
    case Signal(i) => i < |s.producers| && s.producers[i].Ending?
    case Close(i) => i < |s.producers| && s.producers[i].Last?
    case UserClose => true
    case Look(j) => j < |s.consumers| && s.consumers[j].Looking?
    case IsEmpty(j) => j < |s.consumers| && s.consumers[j].Checking?
    case Pop(j) => j < |s.consumers| && s.consumers[j].Popping?
    case Return(j) => j < |s.consumers| && s.consumers[j].Popped?
  }

  /** An error is pushed once and ends the stream; a record is pushed until it is taken. */
  function AfterPush(item: Item): Producer
  {
    if item.Failed? then Ending else Reading
  }

  function AfterUndo(item: Item): Producer
  {
    if item.Failed? then Ending else Holding(item)
  }

  function After(s: State, e: Step): State
    requires Enabled(s, e)
  {
    match e
    case See(i) => s.(producers := s.producers[i := if s.active then Parsing else Reading])
    case Parse(i, Next(r)) =>
      s.(producers := s.producers[i := Holding(Found(i, r))], parsed := s.parsed[i := s.parsed[i] + [r]])
    case Parse(i, Broken) => s.(producers := s.producers[i := Holding(Failed(i))])
    case Parse(i, Skipped) => s.(producers := s.producers[i := Reading])
    case Parse(i, Done) => s.(producers := s.producers[i := Ending])
    case Stop(i) => s.(producers := s.producers[i := Ending])
    case Add(i) =>
      var item := s.producers[i].item;
      s.(count := s.count + 1,
         producers := s.producers[i := if s.count < s.size then Reserved(item) else Rejected(item)])
    case Push(i) =>
      var item := s.producers[i].item;
      s.(queue := s.queue + [item], producers := s.producers[i := AfterPush(item)])
    case Undo(i) =>
      s.(count := s.count - 1, producers := s.producers[i := AfterUndo(s.producers[i].item)])
    case Signal(i) =>
      s.(instances := s.instances - 1, producers := s.producers[i := if s.instances == 1 then Last else Ended])
    case Close(i) => s.(active := false, producers := s.producers[i := Ended])
    case UserClose => s.(active := false, closedByUser := true)
    case Look(j) => s.(consumers := s.consumers[j := if s.active then Popping else Checking])
    case IsEmpty(j) => s.(consumers := s.consumers[j := if s.queue != [] then Popping else Finished])
    case Pop(j) =>
      if s.queue == [] then s.(consumers := s.consumers[j := Looking])
      else s.(queue := s.queue[1..], taken := s.taken + [s.queue[0]],
              consumers := s.consumers[j := Popped(s.queue[0])])
    case Return(j) =>
      s.(count := s.count - 1, delivered := s.delivered + multiset{s.consumers[j].item},
         consumers := s.consumers[j := Looking])
  }

  // ---------------------------------------------------------------------------------------------
  // Sums over the threads

  function Sum<T>(threads: seq<T>, weight: T -> int): int
  {
    if threads == [] then 0 else weight(threads[0]) + Sum(threads[1..], weight)
  }

  lemma {:induction false} SumUpdate<T>(threads: seq<T>, i: nat, t: T, weight: T -> int)
    requires i < |threads|
    ensures Sum(threads[i := t], weight) == Sum(threads, weight) - weight(threads[i]) + weight(t)
  {
    if i > 0 {
      assert threads[i := t][1..] == threads[1..][i - 1 := t];
      SumUpdate(threads[1..], i - 1, t, weight);
    } else {
      assert threads[i := t][1..] == threads[1..];
    }
  }

  /** A sum of zeros and ones lies between 0 and the number of threads. */
  lemma {:induction false} SumBounds<T>(threads: seq<T>, weight: T -> int)
    requires forall t :: 0 <= weight(t) <= 1
    ensures 0 <= Sum(threads, weight) <= |threads|
  {
    if threads != [] {
      SumBounds(threads[1..], weight);
    }
  }

  /** A thread that weighs one is counted. */
  lemma {:induction false} SumAtLeast<T>(threads: seq<T>, i: nat, weight: T -> int)
    requires forall t :: 0 <= weight(t) <= 1
    requires i < |threads|
    ensures Sum(threads, weight) >= weight(threads[i])
  {
    if i > 0 {
      SumAtLeast(threads[1..], i - 1, weight);
    } else {
      SumBounds(threads[1..], weight);
    }
  }

  function Slot(p: Producer): int { if p.Reserved? || p.Rejected? then 1 else 0 }

  function Claim(p: Producer): int { if p.Reserved? then 1 else 0 }

  function Running(p: Producer): int { if p.Last? || p.Ended? then 0 else 1 }

  function Closing(p: Producer): int { if p.Last? then 1 else 0 }

  function Hand(c: Consumer): int { if c.Popped? then 1 else 0 }

  /** The record that a producer has parsed and not yet queued. */
  function Held(p: Producer): seq<Record>
  {
    if (p.Holding? || p.Reserved? || p.Rejected?) && p.item.Found? then [p.item.record] else []
  }

  /** The records of producer `i`, in order. */
  function From(items: seq<Item>, i: nat): seq<Record>
  {
    if items == [] then []
    else (if items[0].Found? && items[0].from == i then [items[0].record] else []) + From(items[1..], i)
  }

  lemma {:induction false} FromJoin(a: seq<Item>, b: seq<Item>, i: nat)
    ensures From(a + b, i) == From(a, i) + From(b, i)
  {
    if a == [] {
      assert a + b == b;
    } else {
      assert (a + b)[1..] == a[1..] + b;
      FromJoin(a[1..], b, i);
    }
  }

  function HandOf(c: Consumer): multiset<Item>
  {
    if c.Popped? then multiset{c.item} else multiset{}
  }

  /** What the consumers have taken and not yet returned. */
  function InHand(consumers: seq<Consumer>): multiset<Item>
  {
    if consumers == [] then multiset{} else HandOf(consumers[0]) + InHand(consumers[1..])
  }

  lemma {:induction false} InHandUpdate(consumers: seq<Consumer>, j: nat, c: Consumer)
    requires j < |consumers|
    ensures InHand(consumers[j := c]) + HandOf(consumers[j]) == InHand(consumers) + HandOf(c)
  {
    hide HandOf;
    var updated := consumers[j := c];
    if j > 0 {
      assert updated[1..] == consumers[1..][j - 1 := c];
      InHandUpdate(consumers[1..], j - 1, c);
      AddToBoth(HandOf(consumers[0]), InHand(updated[1..]), HandOf(consumers[j]), InHand(consumers[1..]), HandOf(c));
    } else {
      assert updated[1..] == consumers[1..];
    }
  }

  lemma AddToBoth(h: multiset<Item>, a: multiset<Item>, b: multiset<Item>, c: multiset<Item>, d: multiset<Item>)
    requires a + b == c + d
    ensures (h + a) + b == (h + c) + d
  {
    assert (h + a) + b == h + (a + b);
    assert (h + c) + d == h + (c + d);
  }

  // ---------------------------------------------------------------------------------------------
  // The invariants

  /** Every item in a producer's hands is its own. */
  ghost predicate Tagged(s: State)
  {
    && |s.parsed| == |s.producers|
    && forall i :: 0 <= i < |s.producers| ==>
         (s.producers[i].Holding? || s.producers[i].Reserved? || s.producers[i].Rejected? ==> s.producers[i].item.from == i)
  }

  /** The count: queued, about to be queued, about to be taken back, and popped but still counted. */
  ghost predicate Counted(s: State)
  {
    s.count == |s.queue| + Sum(s.producers, Slot) + Sum(s.consumers, Hand)
  }

  ghost predicate Bounded(s: State)
  {
    |s.queue| + Sum(s.producers, Claim) + Sum(s.consumers, Hand) <= s.size
  }

  /** What each producer parsed is, in order, what was taken, what is queued and what it holds. */
  ghost predicate Ordered(s: State)
    requires |s.parsed| == |s.producers|
  {
    forall i :: 0 <= i < |s.producers| ==>
      s.parsed[i] == From(s.taken, i) + From(s.queue, i) + Held(s.producers[i])
  }

  ghost predicate Accounted(s: State)
  {
    multiset(s.taken) == s.delivered + InHand(s.consumers)
  }

  ghost predicate Ends(s: State)
  {
    && s.instances == Sum(s.producers, Running)
    && Sum(s.producers, Closing) <= 1
    && (Sum(s.producers, Closing) == 1 ==> s.instances == 0)
    && (!s.active && !s.closedByUser ==> s.instances == 0 && Sum(s.producers, Closing) == 0)
    && (|s.producers| > 0 && s.instances == 0 && Sum(s.producers, Closing) == 0 ==> !s.active)
    && (s.closedByUser ==> !s.active)
  }

  ghost predicate NoneIsLast(s: State)
  {
    forall j :: 0 <= j < |s.consumers| ==>
      && (s.consumers[j].Checking? || s.consumers[j].Finished? ==> !s.active)
      && (s.consumers[j].Finished? && !s.closedByUser ==> s.queue == [])
  }

  ghost predicate Invariant(s: State)
  {
    Tagged(s) && Counted(s) && Bounded(s) && Ordered(s) && Accounted(s) && Ends(s) && NoneIsLast(s)
  }

  lemma InitialInvariant(size: nat, nodes: nat, readers: nat)
    ensures Invariant(Initial(size, nodes, readers))
  {
    ZeroSum(nodes, Reading, Slot);
    ZeroSum(nodes, Reading, Claim);
    ZeroSum(nodes, Reading, Closing);
    ZeroSum(readers, Looking, Hand);
    OneSum(nodes, Reading, Running);
    NothingInHand(readers);
  }

  lemma {:induction false} ZeroSum<T>(n: nat, t: T, weight: T -> int)
    requires weight(t) == 0
    ensures Sum(seq(n, _ => t), weight) == 0
  {
    if n > 0 {
      assert seq(n, _ => t)[1..] == seq(n - 1, _ => t);
      ZeroSum(n - 1, t, weight);
    }
  }

  lemma {:induction false} OneSum<T>(n: nat, t: T, weight: T -> int)
    requires weight(t) == 1
    ensures Sum(seq(n, _ => t), weight) == n
  {
    if n > 0 {
      assert seq(n, _ => t)[1..] == seq(n - 1, _ => t);
      OneSum(n - 1, t, weight);
    }
  }

  lemma {:induction false} NothingInHand(n: nat)
    ensures InHand(seq(n, _ => Looking)) == multiset{}
  {
    if n > 0 {
      assert seq(n, _ => Looking)[1..] == seq(n - 1, _ => Looking);
      NothingInHand(n - 1);
    }
  }

  // ---------------------------------------------------------------------------------------------
  // Every step keeps them

  predicate OfProducer(e: Step)
  {
    !(e.UserClose? || e.Look? || e.IsEmpty? || e.Pop? || e.Return?)
  }

  lemma CountKept(s: State, e: Step)
    requires Enabled(s, e) && Counted(s) && Bounded(s)
    ensures Counted(After(s, e)) && Bounded(After(s, e))
  {
    hide Sum;
    var t := After(s, e);
    if OfProducer(e) {
      SumUpdate(s.producers, e.i, t.producers[e.i], Slot);
      SumUpdate(s.producers, e.i, t.producers[e.i], Claim);
      if e.Add? {
        SlotsCoverClaims(s.producers);
      }
    } else if !e.UserClose? {
      SumUpdate(s.consumers, e.j, t.consumers[e.j], Hand);
    }
  }

  lemma {:induction false} SlotsCoverClaims(producers: seq<Producer>)
    ensures Sum(producers, Claim) <= Sum(producers, Slot)
  {
    if producers != [] {
      SlotsCoverClaims(producers[1..]);
    }
  }

  lemma TagsKept(s: State, e: Step)
    requires Enabled(s, e) && Tagged(s)
    ensures Tagged(After(s, e))
  {
  }

  lemma OrderKept(s: State, e: Step)
    requires Enabled(s, e) && Tagged(s) && Ordered(s)
    ensures |After(s, e).parsed| == |After(s, e).producers| && Ordered(After(s, e))
  {
    hide From;
    if e.Push? {
      OrderPushed(s, e.i);
    } else if e.Pop? && s.queue != [] {
      OrderPopped(s, e.j);
    } else if OfProducer(e) {
      OrderElsewhere(s, e);
    }
  }

  lemma OrderPushed(s: State, i: nat)
    requires Enabled(s, Push(i)) && Tagged(s) && Ordered(s)
    ensures Ordered(After(s, Push(i)))
  {
    hide From;
    var item := s.producers[i].item;
    var producers := s.producers[i := AfterPush(item)];
    forall k | 0 <= k < |s.producers|
      ensures s.parsed[k] == From(s.taken, k) + From(s.queue + [item], k) + Held(producers[k])
    {
      FromPushed(s.queue, item, k);
      if k == i {
        Associative(From(s.taken, k), From(s.queue, k), Held(s.producers[k]));
        assert Held(producers[k]) == [];
      } else {
        assert From(s.queue, k) + [] == From(s.queue, k);
      }
    }
  }

  lemma FromPushed(queue: seq<Item>, item: Item, k: nat)
    ensures From(queue + [item], k) == From(queue, k) + if item.Found? && item.from == k then [item.record] else []
  {
    FromJoin(queue, [item], k);
  }

  lemma Associative(a: seq<Record>, b: seq<Record>, c: seq<Record>)
    ensures a + b + c == a + (b + c)
  {
  }

  lemma OrderPopped(s: State, j: nat)
    requires Enabled(s, Pop(j)) && s.queue != [] && |s.parsed| == |s.producers| && Ordered(s)
    ensures Ordered(After(s, Pop(j)))
  {
    hide Held, From;
    forall k | 0 <= k < |s.producers|
      ensures From(s.taken + [s.queue[0]], k) + From(s.queue[1..], k) == From(s.taken, k) + From(s.queue, k)
    {
      FromJoin(s.taken, [s.queue[0]], k);
      FromJoin([s.queue[0]], s.queue[1..], k);
      assert [s.queue[0]] + s.queue[1..] == s.queue;
      Associative(From(s.taken, k), From([s.queue[0]], k), From(s.queue[1..], k));
    }
  }

  lemma OrderElsewhere(s: State, e: Step)
    requires Enabled(s, e) && OfProducer(e) && !e.Push? && Tagged(s) && Ordered(s)
    ensures |After(s, e).parsed| == |After(s, e).producers| && Ordered(After(s, e))
  {
    hide From;
    if e.Parse? && e.input.Next? {
      var r := e.input.record;
      forall k | 0 <= k < |s.producers|
        ensures s.parsed[e.i := s.parsed[e.i] + [r]][k]
             == From(s.taken, k) + From(s.queue, k) + Held(s.producers[e.i := Holding(Found(e.i, r))][k])
      {
        if k == e.i {
          assert Held(s.producers[k]) == [] && s.parsed[k] == From(s.taken, k) + From(s.queue, k);
        }
      }
    } else {
      SameHeld(s, e);
    }
  }

  lemma SameHeld(s: State, e: Step)
    requires Enabled(s, e) && OfProducer(e) && !e.Push? && !(e.Parse? && e.input.Next?)
    ensures After(s, e).parsed == s.parsed && After(s, e).taken == s.taken && After(s, e).queue == s.queue
    ensures |After(s, e).producers| == |s.producers|
    ensures forall k :: 0 <= k < |s.producers| ==> Held(After(s, e).producers[k]) == Held(s.producers[k])
  {
  }

  lemma AccountKept(s: State, e: Step)
    requires Enabled(s, e) && Accounted(s)
    ensures Accounted(After(s, e))
  {
    hide InHand, After, Enabled;
    if e.Return? {
      AccountReturned(s, e.j);
    } else if e.Pop? && s.queue != [] {
      AccountPopped(s, e.j);
    } else {
      SameHands(s, e);
      if !OfProducer(e) && !e.UserClose? {
        InHandUpdate(s.consumers, e.j, After(s, e).consumers[e.j]);
        NothingAdded(InHand(s.consumers));
        NothingAdded(InHand(After(s, e).consumers));
        assert InHand(After(s, e).consumers) == InHand(s.consumers);
      }
    }
  }

  /** The steps that move no item out of the queue or out of a reader's hands. */
  lemma SameHands(s: State, e: Step)
    requires Enabled(s, e) && !e.Return? && !(e.Pop? && s.queue != [])
    ensures After(s, e).taken == s.taken && After(s, e).delivered == s.delivered
    ensures OfProducer(e) || e.UserClose? ==> After(s, e).consumers == s.consumers
    ensures !OfProducer(e) && !e.UserClose? ==>
      && e.j < |s.consumers| && |After(s, e).consumers| == |s.consumers|
      && After(s, e).consumers == s.consumers[e.j := After(s, e).consumers[e.j]]
      && HandOf(s.consumers[e.j]) == multiset{} && HandOf(After(s, e).consumers[e.j]) == multiset{}
  {
  }

  lemma NothingAdded(m: multiset<Item>)
    ensures m + multiset{} == m
  {
  }

  lemma AccountReturned(s: State, j: nat)
    requires Enabled(s, Return(j)) && Accounted(s)
    ensures Accounted(After(s, Return(j)))
  {
    hide InHand;
    var t, item := After(s, Return(j)), s.consumers[j].item;
    InHandUpdate(s.consumers, j, Looking);
    NothingAdded(InHand(s.consumers));
    assert multiset{item} + InHand(t.consumers) == InHand(s.consumers);
    assert t.delivered + InHand(t.consumers) == s.delivered + (multiset{item} + InHand(t.consumers));
  }

  lemma AccountPopped(s: State, j: nat)
    requires Enabled(s, Pop(j)) && s.queue != [] && Accounted(s)
    ensures Accounted(After(s, Pop(j)))
  {
    hide InHand;
    var t, item := After(s, Pop(j)), s.queue[0];
    InHandUpdate(s.consumers, j, Popped(item));
    assert multiset(t.taken) == multiset(s.taken) + multiset{item};
    assert s.delivered + InHand(t.consumers) == s.delivered + (InHand(s.consumers) + multiset{item});
  }

  lemma EndsKept(s: State, e: Step)
    requires Enabled(s, e) && Ends(s)
    ensures Ends(After(s, e))
  {
    hide Sum;
    var t := After(s, e);
    SumBounds(s.producers, Running);
    SumBounds(s.producers, Closing);
    if OfProducer(e) {
      SumUpdate(s.producers, e.i, t.producers[e.i], Running);
      SumUpdate(s.producers, e.i, t.producers[e.i], Closing);
      SumAtLeast(s.producers, e.i, Running);
      SumAtLeast(s.producers, e.i, Closing);
    }
  }

  lemma NoneKept(s: State, e: Step)
    requires Enabled(s, e) && Ends(s) && NoneIsLast(s)
    ensures NoneIsLast(After(s, e))
  {
    hide Sum;
    if OfProducer(e) {
      SumAtLeast(s.producers, e.i, Running);
    }
  }

  lemma InvariantKept(s: State, e: Step)
    requires Enabled(s, e) && Invariant(s)
    ensures Invariant(After(s, e))
  {
    hide Tagged, Counted, Bounded, Accounted, Ends, NoneIsLast, After, Enabled;
    TagsKept(s, e);
    CountKept(s, e);
    OrderKept(s, e);
    AccountKept(s, e);
    EndsKept(s, e);
    NoneKept(s, e);
  }

  // ---------------------------------------------------------------------------------------------
  // Over whole runs

  ghost predicate Runs(s: State, steps: seq<Step>)
    decreases |steps|
  {
    steps == [] || (Enabled(s, steps[0]) && Runs(After(s, steps[0]), steps[1..]))
  }

  ghost function EndOf(s: State, steps: seq<Step>): State
    requires Runs(s, steps)
    decreases |steps|
  {
    if steps == [] then s else EndOf(After(s, steps[0]), steps[1..])
  }

  lemma {:induction false} RunInvariant(s: State, steps: seq<Step>)
    requires Invariant(s) && Runs(s, steps)
    ensures Invariant(EndOf(s, steps))
    ensures EndOf(s, steps).size == s.size && |EndOf(s, steps).producers| == |s.producers|
    ensures |EndOf(s, steps).consumers| == |s.consumers|
    decreases |steps|
  {
    hide Invariant, Enabled, After;
    if steps != [] {
      InvariantKept(s, steps[0]);
      SameThreads(s, steps[0]);
      RunInvariant(After(s, steps[0]), steps[1..]);
    }
  }

  lemma SameThreads(s: State, e: Step)
    requires Enabled(s, e)
    ensures After(s, e).size == s.size && |After(s, e).producers| == |s.producers|
    ensures |After(s, e).consumers| == |s.consumers|
  {
  }

  /**
   The bound.  In every reachable state the count is what is queued, about to be queued, about to be
   taken back, or popped but still counted; it never underflows and the queue never grows beyond its size.
   */
  lemma QueueIsBounded(size: nat, nodes: nat, readers: nat, steps: seq<Step>)
    requires Runs(Initial(size, nodes, readers), steps)
    ensures var s := EndOf(Initial(size, nodes, readers), steps);
      && s.count == |s.queue| + Sum(s.producers, Slot) + Sum(s.consumers, Hand)
      && |s.queue| <= size
      && 0 <= s.count <= size + nodes
      && 0 <= s.instances <= nodes
  {
    hide Sum;
    InitialInvariant(size, nodes, readers);
    RunInvariant(Initial(size, nodes, readers), steps);
    var s := EndOf(Initial(size, nodes, readers), steps);
    SumBounds(s.producers, Slot);
    SumBounds(s.producers, Claim);
    SumBounds(s.producers, Running);
    SumBounds(s.consumers, Hand);
    SlotsSplit(s.producers);
  }

  lemma {:induction false} SlotsSplit(producers: seq<Producer>)
    ensures Sum(producers, Slot) <= Sum(producers, Claim) + |producers|
  {
    if producers != [] {
      SlotsSplit(producers[1..]);
    }
  }

  ghost predicate AllEnded(s: State)
  {
    forall i :: 0 <= i < |s.producers| ==> s.producers[i].Ended?
  }

  lemma EndedExactly(s: State)
    requires Ends(s)
    ensures AllEnded(s) <==> s.instances == 0 && Sum(s.producers, Closing) == 0
  {
    if s.instances == 0 && Sum(s.producers, Closing) == 0 {
      forall i | 0 <= i < |s.producers| ensures s.producers[i].Ended? {
        SumAtLeast(s.producers, i, Running);
        SumAtLeast(s.producers, i, Closing);
      }
    } else if AllEnded(s) {
      NoneLeft(s.producers);
    }
  }

  lemma {:induction false} NoneLeft(producers: seq<Producer>)
    requires forall i :: 0 <= i < |producers| ==> producers[i].Ended?
    ensures Sum(producers, Running) == 0 && Sum(producers, Closing) == 0
  {
    if producers != [] {
      NoneLeft(producers[1..]);
    }
  }

  /** Unless the user closes it, the recordset closes exactly when its last producer has ended. */
  lemma ClosesWithLastProducer(size: nat, nodes: nat, readers: nat, steps: seq<Step>)
    requires Runs(Initial(size, nodes, readers), steps)
    requires !EndOf(Initial(size, nodes, readers), steps).closedByUser
    ensures var s := EndOf(Initial(size, nodes, readers), steps);
      !s.active <==> nodes > 0 && AllEnded(s)
  {
    InitialInvariant(size, nodes, readers);
    RunInvariant(Initial(size, nodes, readers), steps);
    EndedExactly(EndOf(Initial(size, nodes, readers), steps));
    if nodes == 0 {
      StaysOpen(Initial(size, nodes, readers), steps);
    }
  }

  /** With no producer there is nobody to close it, and no reader ever sees the end. */
  lemma {:induction false} StaysOpen(s: State, steps: seq<Step>)
    requires Runs(s, steps) && |s.producers| == 0 && s.active && !EndOf(s, steps).closedByUser
    ensures EndOf(s, steps).active && !s.closedByUser
    decreases |steps|
  {
    if steps != [] {
      if steps[0].UserClose? {
        ClosedStays(After(s, steps[0]), steps[1..]);
      } else {
        StaysOpen(After(s, steps[0]), steps[1..]);
      }
    }
  }

  lemma {:induction false} ClosedStays(s: State, steps: seq<Step>)
    requires Runs(s, steps) && s.closedByUser
    ensures EndOf(s, steps).closedByUser
    decreases |steps|
  {
    if steps != [] {
      ClosedStays(After(s, steps[0]), steps[1..]);
    }
  }

  lemma {:induction false} CountsFrom(items: seq<Item>, i: nat, r: Record)
    ensures multiset(items)[Found(i, r)] == multiset(From(items, i))[r]
  {
    if items != [] {
      CountsFrom(items[1..], i, r);
      assert items == [items[0]] + items[1..];
      var head := if items[0].Found? && items[0].from == i then [items[0].record] else [];
      assert multiset(head)[r] == multiset([items[0]])[Found(i, r)];
      assert multiset(head + From(items[1..], i)) == multiset(head) + multiset(From(items[1..], i));
    }
  }

  /**
   Exactly once.  Unless the user closes the recordset, a reader that is told that there are no more
   records sees the end: every producer has ended and nothing is queued; each producer's records have
   been taken in the order it parsed them; and each was returned to one reader as often as it was
   parsed, but for those that another reader holds at this moment.
   */
  lemma ExactlyOnce(size: nat, nodes: nat, readers: nat, steps: seq<Step>, j: nat)
    requires Runs(Initial(size, nodes, readers), steps)
    requires !EndOf(Initial(size, nodes, readers), steps).closedByUser
    requires j < |EndOf(Initial(size, nodes, readers), steps).consumers|
    requires EndOf(Initial(size, nodes, readers), steps).consumers[j].Finished?
    ensures var s := EndOf(Initial(size, nodes, readers), steps);
      && AllEnded(s) && s.queue == [] && |s.parsed| == nodes
      && (forall i :: 0 <= i < nodes ==> From(s.taken, i) == s.parsed[i])
      && (forall i, r :: 0 <= i < nodes ==>
            multiset(s.parsed[i])[r] == s.delivered[Found(i, r)] + InHand(s.consumers)[Found(i, r)])
  {
    hide InHand;
    InitialInvariant(size, nodes, readers);
    RunInvariant(Initial(size, nodes, readers), steps);
    var s := EndOf(Initial(size, nodes, readers), steps);
    EndedExactly(s);
    forall i | 0 <= i < nodes ensures From(s.taken, i) == s.parsed[i] {
      assert From(s.queue, i) == [] && Held(s.producers[i]) == [];
    }
    forall i, r | 0 <= i < nodes
      ensures multiset(s.parsed[i])[r] == s.delivered[Found(i, r)] + InHand(s.consumers)[Found(i, r)]
    {
      CountsFrom(s.taken, i, r);
    }
  }

  /** Once every reader has seen the end, what they got is what was parsed. */
  lemma AllDelivered(size: nat, nodes: nat, readers: nat, steps: seq<Step>, i: nat, r: Record)
    requires Runs(Initial(size, nodes, readers), steps) && i < nodes && readers > 0
    requires !EndOf(Initial(size, nodes, readers), steps).closedByUser
    requires forall c :: c in EndOf(Initial(size, nodes, readers), steps).consumers ==> c.Finished?
    ensures var s := EndOf(Initial(size, nodes, readers), steps);
      |s.parsed| == nodes && s.delivered[Found(i, r)] == multiset(s.parsed[i])[r]
  {
    hide Invariant, Runs, EndOf, From;
    InitialInvariant(size, nodes, readers);
    RunInvariant(Initial(size, nodes, readers), steps);
    ExactlyOnce(size, nodes, readers, steps, 0);
    EmptyHands(EndOf(Initial(size, nodes, readers), steps).consumers);
  }

  lemma {:induction false} EmptyHands(consumers: seq<Consumer>)
    requires forall c :: c in consumers ==> !c.Popped?
    ensures InHand(consumers) == multiset{}
  {
    if consumers != [] {
      EmptyHands(consumers[1..]);
    }
  }

  /** Whatever happens, no record is returned more often than it was parsed. */
  lemma AtMostOnce(size: nat, nodes: nat, readers: nat, steps: seq<Step>, i: nat, r: Record)
    requires Runs(Initial(size, nodes, readers), steps) && i < nodes
    ensures var s := EndOf(Initial(size, nodes, readers), steps);
      && |s.parsed| == nodes
      && s.delivered[Found(i, r)] <= multiset(s.parsed[i])[r]
      && From(s.taken, i) <= s.parsed[i]
  {
    hide InHand;
    InitialInvariant(size, nodes, readers);
    RunInvariant(Initial(size, nodes, readers), steps);
    var s := EndOf(Initial(size, nodes, readers), steps);
    CountsFrom(s.taken, i, r);
    var rest := From(s.queue, i) + Held(s.producers[i]);
    Associative(From(s.taken, i), From(s.queue, i), Held(s.producers[i]));
    assert multiset(s.parsed[i]) == multiset(From(s.taken, i)) + multiset(rest);
  }

  // ---------------------------------------------------------------------------------------------
  // Going on

  function Work(p: Producer): int
  {
    match p
    case Reading => 4
    case Parsing => 3
    case Holding(_) => 9
    case Reserved(_) => 8
    case Rejected(item) => if item.Failed? then 8 else 10
    case Ending => 2
    case Last => 1
    case Ended => 0
  }

  lemma {:induction false} WorkNotNegative(producers: seq<Producer>)
    ensures Sum(producers, Work) >= 0
    ensures Sum(producers, Work) == 0 <==> forall i :: 0 <= i < |producers| ==> producers[i].Ended?
  {
    if producers != [] {
      WorkNotNegative(producers[1..]);
      assert producers == [producers[0]] + producers[1..];
    }
  }

  function Length(records: seq<Record>): int
  {
    |records|
  }

  lemma {:induction false} LengthsNotNegative(rest: seq<seq<Record>>)
    ensures Sum(rest, Length) >= 0
    ensures Sum(rest, Length) == 0 <==> forall i :: 0 <= i < |rest| ==> rest[i] == []
  {
    if rest != [] {
      LengthsNotNegative(rest[1..]);
      assert rest == [rest[0]] + rest[1..];
    }
  }

  /** Nobody holds anything, or somebody does. */
  lemma {:induction false} HandsNotNegative(consumers: seq<Consumer>)
    ensures Sum(consumers, Hand) >= 0
    ensures Sum(consumers, Hand) == 0 <==> forall j :: 0 <= j < |consumers| ==> !consumers[j].Popped?
  {
    if consumers != [] {
      HandsNotNegative(consumers[1..]);
      assert consumers == [consumers[0]] + consumers[1..];
    }
  }

  lemma {:induction false} RunsJoin(s: State, a: seq<Step>, b: seq<Step>)
    requires Runs(s, a) && Runs(EndOf(s, a), b)
    ensures Runs(s, a + b) && EndOf(s, a + b) == EndOf(EndOf(s, a), b)
    decreases |a|
  {
    hide Enabled, After;
    if a == [] {
      assert a + b == b;
    } else {
      assert (a + b)[1..] == a[1..] + b;
      RunsJoin(After(s, a[0]), a[1..], b);
    }
  }

  lemma NoSteps(s: State)
    ensures Runs(s, []) && EndOf(s, []) == s
  {
  }

  lemma OneStep(s: State, e: Step)
    requires Enabled(s, e)
    ensures Runs(s, [e]) && EndOf(s, [e]) == After(s, e)
  {
    hide Enabled, After;
    assert [e][1..] == [];
    assert Runs(After(s, e), []);
  }

  lemma Opened(s: State)
    requires Invariant(s)
    ensures Tagged(s) && Counted(s) && Bounded(s) && Ordered(s) && Accounted(s) && Ends(s) && NoneIsLast(s)
  {
  }

  /** The step of a producer that does not depend on the count; `more` are the records that it shall still parse. */
  function OwnStep(i: nat, p: Producer, more: seq<Record>): Option<Step>
  {
    match p
    case Reading => Some(if more != [] then See(i) else Stop(i))
    case Parsing => Some(Parse(i, if more != [] then Next(more[0]) else Done))
    case Reserved(_) => Some(Push(i))
    case Rejected(_) => Some(Undo(i))
    case Ending => Some(Signal(i))
    case Last => Some(Close(i))
    case _ => None
  }

  function AfterOwn(i: nat, p: Producer, rest: seq<seq<Record>>): seq<seq<Record>>
    requires i < |rest|
  {
    if p.Parsing? && rest[i] != [] then rest[i := rest[i][1..]] else rest
  }

  // ---------------------------------------------------------------------------------------------
  // Coming to an end with a reader

  /** A producer that can parse another record, unless the recordset is closed. */
  predicate MayParse(p: Producer)
  {
    p.Reading? || p.Parsing? || ((p.Holding? || p.Reserved? || p.Rejected?) && p.item.Found?)
  }

  /** `rest` holds the records that are still to come on the connection of each producer. */
  ghost predicate Planned(s: State, rest: seq<seq<Record>>)
  {
    |rest| == |s.producers| && forall i :: 0 <= i < |rest| && rest[i] != [] ==> MayParse(s.producers[i])
  }

  /** There is a reader `j` that still takes part, and room for a record. */
  ghost predicate Live(s: State, j: nat, rest: seq<seq<Record>>)
  {
    && Invariant(s) && s.size > 0 && j < |s.consumers| && !s.consumers[j].Finished?
    && Planned(s, rest) && (s.closedByUser ==> Sum(rest, Length) == 0)
  }

  /** What is left to do; the right steps bring it down to 0. */
  function Measure(s: State, rest: seq<seq<Record>>): int
  {
    20 * Sum(rest, Length) + Sum(s.producers, Work) + 3 * |s.queue| + Sum(s.consumers, Hand)
  }

  /** What has been parsed and what is still to come stay the same together. */
  ghost predicate SameInput(s: State, rest: seq<seq<Record>>, t: State, restAfter: seq<seq<Record>>)
  {
    && |s.parsed| == |t.parsed| == |rest| == |restAfter| && t.closedByUser == s.closedByUser
    && forall i :: 0 <= i < |rest| ==> t.parsed[i] + restAfter[i] == s.parsed[i] + rest[i]
  }

  lemma SameInputJoins(s: State, a: seq<seq<Record>>, t: State, b: seq<seq<Record>>, u: State, c: seq<seq<Record>>)
    requires SameInput(s, a, t, b) && SameInput(t, b, u, c)
    ensures SameInput(s, a, u, c)
  {
  }

  /** While a producer has something to parse, the recordset is active. */
  lemma ActiveWhileParsing(s: State, j: nat, rest: seq<seq<Record>>, i: nat)
    requires Live(s, j, rest) && i < |rest| && rest[i] != []
    ensures s.active
  {
    LengthsNotNegative(rest);
    SumAtLeast(s.producers, i, Running);
  }

  lemma OwnStepEnabled(s: State, i: nat, more: seq<Record>)
    requires Tagged(s) && i < |s.producers| && OwnStep(i, s.producers[i], more).Some?
    requires s.producers[i].Reading? && more != [] ==> s.active
    ensures var e := OwnStep(i, s.producers[i], more).value;
      && Enabled(s, e) && OfProducer(e)
      && After(s, e).queue == s.queue + (if s.producers[i].Reserved? then [s.producers[i].item] else [])
      && After(s, e).consumers == s.consumers && After(s, e).size == s.size && After(s, e).taken == s.taken
      && After(s, e).closedByUser == s.closedByUser
      && After(s, e).producers == s.producers[i := After(s, e).producers[i]]
      && |After(s, e).producers| == |s.producers|
  {
  }

  lemma OwnStepProgress(s: State, i: nat, more: seq<Record>)
    requires Tagged(s) && i < |s.producers| && OwnStep(i, s.producers[i], more).Some?
    requires s.producers[i].Reading? && more != [] ==> s.active
    ensures var e, p := OwnStep(i, s.producers[i], more).value, s.producers[i];
      && Enabled(s, e)
      && var q := After(s, e).producers[i];
      && Work(q) + (if p.Reserved? then 3 else 0) < Work(p) + (if p.Parsing? && more != [] then 20 else 0)
      && (more != [] && MayParse(p) ==> MayParse(q))
      && After(s, e).parsed == if p.Parsing? && more != [] then s.parsed[i := s.parsed[i] + [more[0]]] else s.parsed
  {
  }

  /** The plan and the input after such a step. */
  lemma OwnStepPlan(s: State, rest: seq<seq<Record>>, i: nat, t: State)
    requires Planned(s, rest) && i < |s.producers| && |s.parsed| == |s.producers|
    requires |t.producers| == |s.producers| && t.producers == s.producers[i := t.producers[i]]
    requires t.closedByUser == s.closedByUser
    requires rest[i] != [] && MayParse(s.producers[i]) ==> MayParse(t.producers[i])
    requires t.parsed == if s.producers[i].Parsing? && rest[i] != [] then s.parsed[i := s.parsed[i] + [rest[i][0]]]
                         else s.parsed
    ensures Planned(t, AfterOwn(i, s.producers[i], rest)) && SameInput(s, rest, t, AfterOwn(i, s.producers[i], rest))
  {
    hide MayParse;
    var after := AfterOwn(i, s.producers[i], rest);
    if s.producers[i].Parsing? && rest[i] != [] {
      assert t.parsed[i] + after[i] == s.parsed[i] + ([rest[i][0]] + rest[i][1..]);
    }
  }

  lemma OwnStepWorks(s: State, j: nat, rest: seq<seq<Record>>, i: nat)
    requires Live(s, j, rest) && i < |s.producers| && OwnStep(i, s.producers[i], rest[i]).Some?
    ensures var e, after := OwnStep(i, s.producers[i], rest[i]).value, AfterOwn(i, s.producers[i], rest);
      && Enabled(s, e) && Live(After(s, e), j, after) && Measure(After(s, e), after) < Measure(s, rest)
      && SameInput(s, rest, After(s, e), after)
  {
    hide Sum, Invariant, OwnStep, Enabled, After, Work, MayParse, SameInput, Planned;
    hide Counted, Bounded, Ordered, Ends, NoneIsLast;
    PlannedLength(s, rest);
    var e, after := OwnStep(i, s.producers[i], rest[i]).value, AfterOwn(i, s.producers[i], rest);
    Opened(s);
    if rest[i] != [] {
      ActiveWhileParsing(s, j, rest, i);
    }
    OwnStepEnabled(s, i, rest[i]);
    OwnStepProgress(s, i, rest[i]);
    InvariantKept(s, e);
    OwnStepPlan(s, rest, i, After(s, e));
    SumUpdate(s.producers, i, After(s, e).producers[i], Work);
    if s.producers[i].Parsing? && rest[i] != [] {
      SumUpdate(rest, i, rest[i][1..], Length);
      LengthsNotNegative(rest);
    }
  }

  lemma AddWorks(s: State, j: nat, rest: seq<seq<Record>>, i: nat)
    requires Live(s, j, rest) && i < |s.producers| && s.producers[i].Holding? && s.count < s.size
    ensures Enabled(s, Add(i)) && Live(After(s, Add(i)), j, rest)
    ensures Measure(After(s, Add(i)), rest) < Measure(s, rest) && SameInput(s, rest, After(s, Add(i)), rest)
  {
    hide Sum, Invariant, Counted, Bounded, Ordered, Ends, NoneIsLast, Accounted;
    InvariantKept(s, Add(i));
    Opened(s);
    SumUpdate(s.producers, i, Reserved(s.producers[i].item), Work);
  }

  lemma ReturnWorks(s: State, j: nat, rest: seq<seq<Record>>, k: nat)
    requires Live(s, j, rest) && k < |s.consumers| && s.consumers[k].Popped?
    ensures Enabled(s, Return(k)) && Live(After(s, Return(k)), j, rest)
    ensures Measure(After(s, Return(k)), rest) < Measure(s, rest) && SameInput(s, rest, After(s, Return(k)), rest)
  {
    hide Sum, Invariant;
    InvariantKept(s, Return(k));
    Opened(s);
    SumUpdate(s.consumers, k, Looking, Hand);
  }

  /** A reader gets hold of the next item, from wherever it is. */
  lemma PopNext(s: State, j: nat, rest: seq<seq<Record>>) returns (steps: seq<Step>)
    requires Live(s, j, rest) && s.queue != []
    requires s.consumers[j].Looking? || s.consumers[j].Checking? || s.consumers[j].Popping?
    ensures Runs(s, steps) && Live(EndOf(s, steps), j, rest)
    ensures Measure(EndOf(s, steps), rest) < Measure(s, rest) && SameInput(s, rest, EndOf(s, steps), rest)
    decreases if s.consumers[j].Looking? then 2 else if s.consumers[j].Checking? then 1 else 0
  {
    hide Sum, Invariant, Runs, EndOf;
    var e := if s.consumers[j].Looking? then Look(j) else if s.consumers[j].Checking? then IsEmpty(j) else Pop(j);
    Opened(s);
    InvariantKept(s, e);
    OneStep(s, e);
    SumUpdate(s.consumers, j, After(s, e).consumers[j], Hand);
    if e.Pop? {
      steps := [e];
    } else {
      var others := PopNext(After(s, e), j, rest);
      RunsJoin(s, [e], others);
      steps := [e] + others;
    }
  }

  /** As long as there is something to do, some thread can do some of it. */
  lemma SomeStep(s: State, j: nat, rest: seq<seq<Record>>) returns (steps: seq<Step>, after: seq<seq<Record>>)
    requires Live(s, j, rest) && Measure(s, rest) > 0
    ensures Runs(s, steps) && Live(EndOf(s, steps), j, after)
    ensures Measure(EndOf(s, steps), after) < Measure(s, rest) && SameInput(s, rest, EndOf(s, steps), after)
  {
    hide Runs, EndOf, After, Enabled, Sum, Measure, Invariant, SameInput;
    after := rest;
    if i :| 0 <= i < |s.producers| && OwnStep(i, s.producers[i], rest[i]).Some? {
      OwnStepWorks(s, j, rest, i);
      OneStep(s, OwnStep(i, s.producers[i], rest[i]).value);
      steps := [OwnStep(i, s.producers[i], rest[i]).value];
      after := AfterOwn(i, s.producers[i], rest);
    } else if k :| 0 <= k < |s.consumers| && s.consumers[k].Popped? {
      ReturnWorks(s, j, rest, k);
      OneStep(s, Return(k));
      steps := [Return(k)];
    } else if s.queue != [] {
      steps := PopNext(s, j, rest);
    } else {
      var i := WaitingToAdd(s, j, rest);
      AddWorks(s, j, rest, i);
      OneStep(s, Add(i));
      steps := [Add(i)];
    }
  }

  /** If nothing is queued and nobody is in the middle of something, the count is 0. */
  lemma WaitingToAdd(s: State, j: nat, rest: seq<seq<Record>>) returns (i: nat)
    requires Live(s, j, rest) && Measure(s, rest) > 0 && s.queue == []
    requires forall i :: 0 <= i < |s.producers| ==> OwnStep(i, s.producers[i], rest[i]).None?
    requires forall k :: 0 <= k < |s.consumers| ==> !s.consumers[k].Popped?
    ensures i < |s.producers| && s.producers[i].Holding? && s.count < s.size
  {
    WorkNotNegative(s.producers);
    HandsNotNegative(s.consumers);
    LengthsNotNegative(rest);
    forall i | 0 <= i < |s.producers| ensures s.producers[i].Holding? || s.producers[i].Ended? {
      assert OwnStep(i, s.producers[i], rest[i]).None?;
    }
    NoSlots(s.producers);
    if k :| 0 <= k < |rest| && rest[k] != [] {
      assert MayParse(s.producers[k]);
      i := k;
    } else {
      i :| 0 <= i < |s.producers| && !s.producers[i].Ended?;
    }
  }

  lemma {:induction false} NoSlots(producers: seq<Producer>)
    requires forall i :: 0 <= i < |producers| ==> producers[i].Holding? || producers[i].Ended?
    ensures Sum(producers, Slot) == 0 && Sum(producers, Claim) == 0
  {
    if producers != [] {
      NoSlots(producers[1..]);
    }
  }

  lemma {:induction false} RunDown(s: State, j: nat, rest: seq<seq<Record>>)
    returns (steps: seq<Step>, after: seq<seq<Record>>)
    requires Live(s, j, rest)
    ensures Runs(s, steps) && Live(EndOf(s, steps), j, after) && Measure(EndOf(s, steps), after) == 0
    ensures SameInput(s, rest, EndOf(s, steps), after)
    decreases Measure(s, rest)
  {
    MeasureNotNegative(s, rest);
    hide Live, Measure, EndOf, SameInput;
    if Measure(s, rest) == 0 {
      NoSteps(s);
      SameInputHere(s, j, rest);
      steps, after := [], rest;
    } else {
      var first, between := SomeStep(s, j, rest);
      var others, last := RunDown(EndOf(s, first), j, between);
      RunsJoin(s, first, others);
      SameInputJoins(s, rest, EndOf(s, first), between, EndOf(s, first + others), last);
      steps, after := first + others, last;
    }
  }

  lemma SameInputHere(s: State, j: nat, rest: seq<seq<Record>>)
    requires Live(s, j, rest)
    ensures SameInput(s, rest, s, rest)
  {
  }

  lemma MeasureNotNegative(s: State, rest: seq<seq<Record>>)
    ensures Measure(s, rest) >= 0
    ensures Measure(s, rest) == 0 ==> AllEnded(s) && s.queue == []
    ensures Measure(s, rest) == 0 ==> forall j :: 0 <= j < |s.consumers| ==> !s.consumers[j].Popped?
    ensures Measure(s, rest) == 0 ==> forall i :: 0 <= i < |rest| ==> rest[i] == []
  {
    WorkNotNegative(s.producers);
    HandsNotNegative(s.consumers);
    LengthsNotNegative(rest);
  }

  // ---------------------------------------------------------------------------------------------
  // The readers see the end

  /** All is done: nobody holds an item, and the recordset is closed. */
  ghost predicate Quiet(s: State)
  {
    Invariant(s) && AllEnded(s) && s.queue == [] && !s.active && forall c :: c in s.consumers ==> !c.Popped?
  }

  /** In a quiet state what was delivered is what was parsed. */
  lemma QuietIsDelivered(s: State)
    requires Quiet(s)
    ensures |s.parsed| == |s.producers|
    ensures forall i: nat, r :: i < |s.producers| ==> s.delivered[Found(i, r)] == multiset(s.parsed[i])[r]
  {
    hide InHand;
    EmptyHands(s.consumers);
    forall i: nat, r | i < |s.producers| ensures s.delivered[Found(i, r)] == multiset(s.parsed[i])[r] {
      assert From(s.queue, i) == [] && Held(s.producers[i]) == [];
      CountsFrom(s.taken, i, r);
    }
  }

  /** The steps that bring reader `j` to the end. */
  lemma SeesEnd(s: State, j: nat) returns (steps: seq<Step>)
    requires Quiet(s) && j < |s.consumers|
    ensures Runs(s, steps) && Quiet(EndOf(s, steps)) && EndOf(s, steps).parsed == s.parsed
    ensures |EndOf(s, steps).consumers| == |s.consumers| && EndOf(s, steps).consumers[j].Finished?
    ensures forall k :: 0 <= k < |s.consumers| && k != j ==> EndOf(s, steps).consumers[k] == s.consumers[k]
    decreases match s.consumers[j] case Popping => 3 case Looking => 2 case Checking => 1 case _ => 0
  {
    hide Invariant, Runs, EndOf;
    assert s.consumers[j] in s.consumers;
    if s.consumers[j].Finished? {
      NoSteps(s);
      steps := [];
    } else {
      var e := if s.consumers[j].Popping? then Pop(j) else if s.consumers[j].Looking? then Look(j) else IsEmpty(j);
      InvariantKept(s, e);
      OneStep(s, e);
      var others := SeesEnd(After(s, e), j);
      RunsJoin(s, [e], others);
      steps := [e] + others;
    }
  }

  /** All readers see it, one after the other. */
  lemma AllSeeEnd(s: State, n: nat) returns (steps: seq<Step>)
    requires Quiet(s) && n <= |s.consumers| && forall k :: 0 <= k < n ==> s.consumers[k].Finished?
    ensures Runs(s, steps) && Quiet(EndOf(s, steps)) && EndOf(s, steps).parsed == s.parsed
    ensures |EndOf(s, steps).consumers| == |s.consumers|
    ensures forall c :: c in EndOf(s, steps).consumers ==> c.Finished?
    decreases |s.consumers| - n
  {
    hide Invariant, Runs, EndOf, Quiet;
    if n == |s.consumers| {
      NoSteps(s);
      steps := [];
    } else {
      var first := SeesEnd(s, n);
      var others := AllSeeEnd(EndOf(s, first), n + 1);
      RunsJoin(s, first, others);
      steps := first + others;
    }
  }

  lemma EndedIsQuiet(s: State)
    requires Invariant(s) && AllEnded(s) && |s.producers| > 0 && s.queue == []
    requires forall j :: 0 <= j < |s.consumers| ==> !s.consumers[j].Popped?
    ensures Quiet(s)
  {
    EndedExactly(s);
  }

  /** A reader that has seen the end has seen it for all, if the user has not closed the recordset. */
  lemma FinishedIsQuiet(s: State, rest: seq<seq<Record>>)
    requires Invariant(s) && Planned(s, rest) && !s.closedByUser && |s.consumers| > 0
    requires forall j :: 0 <= j < |s.consumers| ==> s.consumers[j].Finished?
    ensures Quiet(s) && forall i :: 0 <= i < |rest| ==> rest[i] == []
  {
    assert s.consumers[0].Finished?;
    EndedExactly(s);
  }

  /** From `s`, `more` parses exactly `rest`, ends all producers, delivers every record and lets every reader see the end. */
  ghost predicate Completes(s: State, rest: seq<seq<Record>>, more: seq<Step>)
  {
    && Runs(s, more)
    && var t := EndOf(s, more);
    && AllEnded(t) && t.queue == [] && (forall c :: c in t.consumers ==> c.Finished?)
    && |s.parsed| == |t.parsed| == |rest|
    && forall i: nat :: i < |rest| ==>
         t.parsed[i] == s.parsed[i] + rest[i] && forall r :: t.delivered[Found(i, r)] == multiset(t.parsed[i])[r]
  }

  /**
   No deadlock: whatever has happened so far, and whatever is still to come on the connections, as long as the
   user has not closed the recordset all of it can still be parsed and delivered to the readers, all producers
   can end, and every reader can see the end.
   */
  lemma CanComplete(size: nat, nodes: nat, readers: nat, steps: seq<Step>, rest: seq<seq<Record>>)
    returns (more: seq<Step>)
    requires size > 0 && nodes > 0 && readers > 0 && Runs(Initial(size, nodes, readers), steps)
    requires !EndOf(Initial(size, nodes, readers), steps).closedByUser
    requires Planned(EndOf(Initial(size, nodes, readers), steps), rest)
    ensures Completes(EndOf(Initial(size, nodes, readers), steps), rest, more)
  {
    hide Runs, EndOf;
    var s := EndOf(Initial(size, nodes, readers), steps);
    InitialInvariant(size, nodes, readers);
    RunInvariant(Initial(size, nodes, readers), steps);
    more := Completion(s, rest);
  }

  lemma Completion(s: State, rest: seq<seq<Record>>) returns (more: seq<Step>)
    requires Invariant(s) && s.size > 0 && |s.producers| > 0 && |s.consumers| > 0 && !s.closedByUser && Planned(s, rest)
    ensures Completes(s, rest, more)
  {
    hide Runs, EndOf, Invariant, Measure, Quiet, Planned, SameInput, Completes;
    PlannedLength(s, rest);
    var down := [];
    if j :| 0 <= j < |s.consumers| && !s.consumers[j].Finished? {
      var after;
      down, after := RunDown(s, j, rest);
      MeasureNotNegative(EndOf(s, down), after);
      RunInvariant(s, down);
      EndedIsQuiet(EndOf(s, down));
      AllParsed(s, rest, EndOf(s, down), after);
    } else {
      FinishedIsQuiet(s, rest);
      NoSteps(s);
      AllParsed(s, rest, s, rest);
    }
    var last := AllSeeEnd(EndOf(s, down), 0);
    RunsJoin(s, down, last);
    more := down + last;
    Completed(s, rest, more);
  }

  lemma AllParsed(s: State, rest: seq<seq<Record>>, t: State, after: seq<seq<Record>>)
    requires |s.parsed| == |rest| && (SameInput(s, rest, t, after) || (t == s && after == rest))
    requires forall i :: 0 <= i < |after| ==> after[i] == []
    ensures |t.parsed| == |rest| && forall i :: 0 <= i < |rest| ==> t.parsed[i] == s.parsed[i] + rest[i]
  {
    if t == s && after == rest {
    } else {
      forall i | 0 <= i < |rest| ensures t.parsed[i] == s.parsed[i] + rest[i] {
        assert t.parsed[i] + [] == t.parsed[i];
      }
    }
  }

  lemma Completed(s: State, rest: seq<seq<Record>>, more: seq<Step>)
    requires Runs(s, more) && Quiet(EndOf(s, more)) && |s.parsed| == |EndOf(s, more).parsed| == |rest|
    requires forall c :: c in EndOf(s, more).consumers ==> c.Finished?
    requires forall i :: 0 <= i < |rest| ==> EndOf(s, more).parsed[i] == s.parsed[i] + rest[i]
    ensures Completes(s, rest, more)
  {
    hide Runs, EndOf, Invariant;
    QuietIsDelivered(EndOf(s, more));
  }

  /** Each producer has its plan, and what it parsed so far. */
  lemma PlannedLength(s: State, rest: seq<seq<Record>>)
    requires Planned(s, rest) && Invariant(s)
    ensures |rest| == |s.producers| == |s.parsed|
  {
  }
}
