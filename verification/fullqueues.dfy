/**
 Record queues that nobody empties: exactly when a producer still gets rid of its record, and exactly when
 all producers still come to an end, also after the user has closed the recordset
 (src/query/recordset.rs, src/commands/stream_command.rs).
 */
module FullQueues {
  import opened Recordsets

  /** The places that are taken for good while nobody takes an item: those of queued and of accepted items. */
  function Occupied(s: State): int
  {
    |s.queue| + Sum(s.producers, Claim)
  }

  /** A producer with a record that has not been accepted. */
  function Waiting(p: Producer): int
  {
    if (p.Holding? || p.Rejected?) && p.item.Found? then 1 else 0
  }

  function Refused(p: Producer): int
  {
    if p.Rejected? then 1 else 0
  }

  lemma {:induction false} SlotsAre(producers: seq<Producer>)
    ensures Sum(producers, Slot) == Sum(producers, Claim) + Sum(producers, Refused)
  {
    if producers != [] {
      SlotsAre(producers[1..]);
    }
  }

  lemma {:induction false} RefusedNotNegative(producers: seq<Producer>)
    ensures Sum(producers, Refused) >= 0
    ensures Sum(producers, Refused) == 0 <==> forall i :: 0 <= i < |producers| ==> !producers[i].Rejected?
  {
    if producers != [] {
      RefusedNotNegative(producers[1..]);
      assert producers == [producers[0]] + producers[1..];
    }
  }

  lemma {:induction false} WaitingNotNegative(producers: seq<Producer>)
    ensures Sum(producers, Waiting) >= 0
    ensures Sum(producers, Waiting) == 0 <==> forall i :: 0 <= i < |producers| ==> Waiting(producers[i]) == 0
  {
    if producers != [] {
      WaitingNotNegative(producers[1..]);
      assert producers == [producers[0]] + producers[1..];
    }
  }

  /** A step that takes an item off the queue. */
  predicate Takes(s: State, e: Step)
  {
    e.Pop? && s.queue != []
  }

  // ---------------------------------------------------------------------------------------------
  // No place becomes free unless an item is taken

  lemma TakenGrows(s: State, e: Step)
    requires Enabled(s, e)
    ensures |After(s, e).taken| == |s.taken| + if Takes(s, e) then 1 else 0
    ensures !Takes(s, e) ==> After(s, e).taken == s.taken
  {
  }

  lemma {:induction false} TakenGrowsAlong(s: State, steps: seq<Step>)
    requires Runs(s, steps)
    ensures |EndOf(s, steps).taken| >= |s.taken|
    decreases |steps|
  {
    hide After, Enabled;
    if steps != [] {
      TakenGrows(s, steps[0]);
      TakenGrowsAlong(After(s, steps[0]), steps[1..]);
    }
  }

  /** In a run that takes nothing no step does. */
  lemma FirstTakesNothing(s: State, steps: seq<Step>)
    requires Runs(s, steps) && steps != [] && EndOf(s, steps).taken == s.taken
    ensures !Takes(s, steps[0]) && After(s, steps[0]).taken == s.taken
  {
    hide After, Enabled;
    TakenGrows(s, steps[0]);
    TakenGrowsAlong(After(s, steps[0]), steps[1..]);
  }

  /** The queue and one producer at most change in such a step. */
  lemma StepOutline(s: State, e: Step)
    requires Enabled(s, e) && !Takes(s, e)
    ensures After(s, e).size == s.size && |After(s, e).producers| == |s.producers|
    ensures !e.Push? ==> After(s, e).queue == s.queue
    ensures e.Push? ==> |After(s, e).queue| == |s.queue| + 1
    ensures !OfProducer(e) ==> After(s, e).producers == s.producers
    ensures OfProducer(e) ==> e.i < |s.producers| && After(s, e).producers == s.producers[e.i := After(s, e).producers[e.i]]
  {
  }

  lemma StepSpace(s: State, e: Step)
    requires Enabled(s, e) && OfProducer(e)
    ensures var p, q := s.producers[e.i], After(s, e).producers[e.i];
      && Claim(q) >= Claim(p) - (if e.Push? then 1 else 0)
      && Claim(q) + Waiting(q) >= Claim(p) + Waiting(p) - (if e.Push? then 1 else 0)
  {
  }

  /** Without an item being taken, the occupied places and the records that wait for one never become fewer. */
  lemma SpaceShrinks(s: State, e: Step)
    requires Enabled(s, e) && !Takes(s, e)
    ensures Occupied(After(s, e)) >= Occupied(s)
    ensures Occupied(After(s, e)) + Sum(After(s, e).producers, Waiting) >= Occupied(s) + Sum(s.producers, Waiting)
  {
    hide Sum, After, Enabled, Claim, Waiting;
    StepOutline(s, e);
    if OfProducer(e) {
      var q := After(s, e).producers[e.i];
      StepSpace(s, e);
      SumUpdate(s.producers, e.i, q, Claim);
      SumUpdate(s.producers, e.i, q, Waiting);
    }
  }

  // ---------------------------------------------------------------------------------------------
  // One record

  /** Producer `i` tries to push a record that has not been accepted. */
  predicate Offers(s: State, i: nat)
  {
    i < |s.producers| && Waiting(s.producers[i]) == 1
  }

  /** A run in which nothing is taken, and after which producer `i` holds no record any more. */
  ghost predicate GetsRidOf(s: State, i: nat, steps: seq<Step>)
  {
    && Runs(s, steps) && EndOf(s, steps).taken == s.taken
    && i < |EndOf(s, steps).producers| && Held(EndOf(s, steps).producers[i]) == []
  }

  /** With all places occupied the producer can only add to the count and take its one back. */
  lemma OfferStays(s: State, e: Step, i: nat)
    requires Invariant(s) && Enabled(s, e) && Offers(s, i) && Occupied(s) >= s.size
    ensures Offers(After(s, e), i)
  {
    hide Sum, Tagged, Bounded, Ordered, Accounted, Ends, NoneIsLast;
    SlotsAre(s.producers);
    RefusedNotNegative(s.producers);
    HandsNotNegative(s.consumers);
    assert s.count >= s.size;
    OfferStep(s, e, i);
  }

  lemma OfferStep(s: State, e: Step, i: nat)
    requires Enabled(s, e) && Offers(s, i) && s.count >= s.size
    ensures Offers(After(s, e), i)
  {
  }

  lemma {:induction false} OfferStaysAlong(s: State, steps: seq<Step>, i: nat)
    requires Invariant(s) && Runs(s, steps) && Offers(s, i) && Occupied(s) >= s.size
    requires EndOf(s, steps).taken == s.taken
    ensures Offers(EndOf(s, steps), i)
    decreases |steps|
  {
    hide Invariant, After, Enabled, Occupied, Offers;
    if steps != [] {
      var e := steps[0];
      FirstTakesNothing(s, steps);
      OfferStays(s, e, i);
      SpaceShrinks(s, e);
      SameThreads(s, e);
      InvariantKept(s, e);
      OfferStaysAlong(After(s, e), steps[1..], i);
    }
  }

  lemma OfferIsHeld(s: State, i: nat)
    requires Offers(s, i)
    ensures Held(s.producers[i]) != []
  {
  }

  /** Refusals are taken back and items in hand are returned, until the count is the number of occupied places. */
  lemma {:induction false} SettleCount(s: State, i: nat) returns (steps: seq<Step>)
    requires Invariant(s) && Offers(s, i)
    ensures Runs(s, steps) && EndOf(s, steps).taken == s.taken && Invariant(EndOf(s, steps))
    ensures Offers(EndOf(s, steps), i) && Occupied(EndOf(s, steps)) == Occupied(s) && EndOf(s, steps).size == s.size
    ensures EndOf(s, steps).count == Occupied(s) && EndOf(s, steps).producers[i].Holding?
    decreases Sum(s.producers, Refused) + Sum(s.consumers, Hand)
  {
    hide Invariant, Runs, EndOf, Sum;
    SlotsAre(s.producers);
    RefusedNotNegative(s.producers);
    HandsNotNegative(s.consumers);
    if k :| 0 <= k < |s.producers| && s.producers[k].Rejected? {
      UndoStep(s, k, i);
      InvariantKept(s, Undo(k));
      RefusedNotNegative(After(s, Undo(k)).producers);
      HandsNotNegative(After(s, Undo(k)).consumers);
      var others := SettleCount(After(s, Undo(k)), i);
      OneStep(s, Undo(k));
      RunsJoin(s, [Undo(k)], others);
      steps := [Undo(k)] + others;
    } else if j :| 0 <= j < |s.consumers| && s.consumers[j].Popped? {
      ReturnStep(s, j);
      InvariantKept(s, Return(j));
      RefusedNotNegative(After(s, Return(j)).producers);
      HandsNotNegative(After(s, Return(j)).consumers);
      var others := SettleCount(After(s, Return(j)), i);
      OneStep(s, Return(j));
      RunsJoin(s, [Return(j)], others);
      steps := [Return(j)] + others;
    } else {
      NoSteps(s);
      Opened(s);
      steps := [];
    }
  }

  lemma UndoStep(s: State, k: nat, i: nat)
    requires k < |s.producers| && s.producers[k].Rejected? && Offers(s, i)
    ensures var t := After(s, Undo(k));
      && Occupied(t) == Occupied(s) && t.taken == s.taken && t.size == s.size && Offers(t, i)
      && t.consumers == s.consumers && Sum(t.producers, Refused) == Sum(s.producers, Refused) - 1
  {
    hide Sum;
    var q := AfterUndo(s.producers[k].item);
    SumUpdate(s.producers, k, q, Refused);
    SumUpdate(s.producers, k, q, Claim);
  }

  lemma ReturnStep(s: State, j: nat)
    requires j < |s.consumers| && s.consumers[j].Popped?
    ensures var t := After(s, Return(j));
      && Occupied(t) == Occupied(s) && t.taken == s.taken && t.size == s.size && t.producers == s.producers
      && Sum(t.consumers, Hand) == Sum(s.consumers, Hand) - 1
  {
    hide Sum;
    SumUpdate(s.consumers, j, Looking, Hand);
  }

  /** With a place free the count lets the producer in, and it pushes. */
  lemma PushesInto(s: State, i: nat) returns (steps: seq<Step>)
    requires i < |s.producers| && s.producers[i].Holding? && s.producers[i].item.Found? && s.count < s.size
    ensures GetsRidOf(s, i, steps)
  {
    var t := After(s, Add(i));
    OneStep(s, Add(i));
    OneStep(t, Push(i));
    RunsJoin(s, [Add(i)], [Push(i)]);
    steps := [Add(i)] + [Push(i)];
  }

  /**
   A record that a producer offers can be got rid of without an item being taken, exactly if not all places of the
   queue are occupied.  This holds whether the recordset is active, closed by the user, or without a reader.
   */
  lemma OffHandsExactly(s: State, i: nat)
    requires Invariant(s) && Offers(s, i)
    ensures (exists steps :: GetsRidOf(s, i, steps)) <==> Occupied(s) < s.size
  {
    hide Invariant, Runs, EndOf, Occupied, Held, After, Enabled;
    if Occupied(s) < s.size {
      var settle := SettleCount(s, i);
      var push := PushesInto(EndOf(s, settle), i);
      RunsJoin(s, settle, push);
      assert GetsRidOf(s, i, settle + push);
    } else {
      forall steps | Runs(s, steps) && EndOf(s, steps).taken == s.taken ensures !GetsRidOf(s, i, steps) {
        OfferStaysAlong(s, steps, i);
        OfferIsHeld(EndOf(s, steps), i);
      }
    }
  }

  // ---------------------------------------------------------------------------------------------
  // All producers

  ghost predicate EndsBy(s: State, steps: seq<Step>)
  {
    Runs(s, steps) && AllEnded(EndOf(s, steps))
  }

  /** There is a reader who has not seen the end. */
  ghost predicate SomeReader(s: State)
  {
    exists j :: 0 <= j < |s.consumers| && !s.consumers[j].Finished?
  }

  /** Places for all records that have been parsed and not been accepted. */
  ghost predicate RoomForAll(s: State)
  {
    Occupied(s) + Sum(s.producers, Waiting) <= s.size
  }

  /** With a reader everything can be taken. */
  lemma EndsWithReader(s: State) returns (steps: seq<Step>)
    requires Invariant(s) && s.size > 0 && SomeReader(s)
    ensures EndsBy(s, steps)
  {
    hide Invariant, Runs, EndOf, Measure;
    var j :| 0 <= j < |s.consumers| && !s.consumers[j].Finished?;
    var rest: seq<seq<Record>> := seq(|s.producers|, _ => []);
    LengthsNotNegative(rest);
    var after;
    steps, after := RunDown(s, j, rest);
    MeasureNotNegative(EndOf(s, steps), after);
  }

  /** What is left to do for the producers alone. */
  function Effort(s: State): int
  {
    Sum(s.producers, Work) + Sum(s.consumers, Hand)
  }

  lemma RoomKept(s: State, i: nat)
    requires Invariant(s) && RoomForAll(s) && i < |s.producers| && OwnStep(i, s.producers[i], []).Some?
    ensures var e := OwnStep(i, s.producers[i], []).value;
      Enabled(s, e) && Invariant(After(s, e)) && RoomForAll(After(s, e)) && Effort(After(s, e)) < Effort(s)
  {
    hide Sum, Invariant, OwnStep, Enabled, After, Work, Claim, Waiting;
    var e := OwnStep(i, s.producers[i], []).value;
    Opened(s);
    OwnStepEnabled(s, i, []);
    OwnStepProgress(s, i, []);
    OwnStepSpace(s, i);
    InvariantKept(s, e);
    SumUpdate(s.producers, i, After(s, e).producers[i], Work);
    SumUpdate(s.producers, i, After(s, e).producers[i], Claim);
    SumUpdate(s.producers, i, After(s, e).producers[i], Waiting);
  }

  lemma OwnStepSpace(s: State, i: nat)
    requires i < |s.producers| && OwnStep(i, s.producers[i], []).Some?
    requires Enabled(s, OwnStep(i, s.producers[i], []).value)
    ensures var p, q := s.producers[i], After(s, OwnStep(i, s.producers[i], []).value).producers[i];
      Claim(q) + Waiting(q) + (if p.Reserved? then 1 else 0) == Claim(p) + Waiting(p)
  {
  }

  lemma ReturnKeepsRoom(s: State, j: nat)
    requires Invariant(s) && RoomForAll(s) && j < |s.consumers| && s.consumers[j].Popped?
    ensures Invariant(After(s, Return(j))) && RoomForAll(After(s, Return(j)))
    ensures Effort(After(s, Return(j))) < Effort(s)
  {
    hide Invariant;
    ReturnStep(s, j);
    InvariantKept(s, Return(j));
  }

  /** Once all that is left is to add, records go first: for them there is room; an error may be refused. */
  lemma AddKeepsRoom(s: State) returns (i: nat)
    requires Invariant(s) && RoomForAll(s) && !AllEnded(s)
    requires forall i :: 0 <= i < |s.producers| ==> OwnStep(i, s.producers[i], []).None?
    requires forall j :: 0 <= j < |s.consumers| ==> !s.consumers[j].Popped?
    ensures i < |s.producers| && s.producers[i].Holding?
    ensures Invariant(After(s, Add(i))) && RoomForAll(After(s, Add(i))) && Effort(After(s, Add(i))) < Effort(s)
  {
    hide Invariant;
    forall i | 0 <= i < |s.producers| ensures s.producers[i].Holding? || s.producers[i].Ended? {
      assert OwnStep(i, s.producers[i], []).None?;
    }
    NoSlots(s.producers);
    HandsNotNegative(s.consumers);
    WaitingNotNegative(s.producers);
    Opened(s);
    assert s.count == |s.queue|;
    if k :| 0 <= k < |s.producers| && Waiting(s.producers[k]) > 0 {
      i := k;
    } else {
      i :| 0 <= i < |s.producers| && !s.producers[i].Ended?;
    }
    InvariantKept(s, Add(i));
    AddSpace(s, i);
  }

  lemma AddSpace(s: State, i: nat)
    requires i < |s.producers| && s.producers[i].Holding? && RoomForAll(s)
    requires s.count == Occupied(s) && (s.producers[i].item.Found? ==> s.count < s.size)
    requires s.producers[i].item.Failed? ==> Sum(s.producers, Waiting) == 0
    ensures RoomForAll(After(s, Add(i))) && Effort(After(s, Add(i))) < Effort(s)
  {
    hide Sum;
    var q := After(s, Add(i)).producers[i];
    SumUpdate(s.producers, i, q, Work);
    SumUpdate(s.producers, i, q, Claim);
    SumUpdate(s.producers, i, q, Waiting);
  }

  /** With room for all, nobody need take anything. */
  lemma {:induction false} EndsWithRoom(s: State) returns (steps: seq<Step>)
    requires Invariant(s) && RoomForAll(s)
    ensures EndsBy(s, steps)
    decreases Effort(s)
  {
    WorkNotNegative(s.producers);
    HandsNotNegative(s.consumers);
    hide Invariant, RoomForAll, Effort, Runs, EndOf, After, Enabled, OwnStep;
    var e: Step;
    if AllEnded(s) {
      NoSteps(s);
      return [];
    } else if i :| 0 <= i < |s.producers| && OwnStep(i, s.producers[i], []).Some? {
      e := OwnStep(i, s.producers[i], []).value;
      RoomKept(s, i);
    } else if j :| 0 <= j < |s.consumers| && s.consumers[j].Popped? {
      e := Return(j);
      ReturnEnabled(s, j);
      ReturnKeepsRoom(s, j);
    } else {
      var i := AddKeepsRoom(s);
      AddEnabled(s, i);
      e := Add(i);
    }
    EffortNotNegative(After(s, e));
    OneStep(s, e);
    var others := EndsWithRoom(After(s, e));
    RunsJoin(s, [e], others);
    steps := [e] + others;
  }

  lemma EffortNotNegative(s: State)
    ensures Effort(s) >= 0
  {
    WorkNotNegative(s.producers);
    HandsNotNegative(s.consumers);
  }

  lemma ReturnEnabled(s: State, j: nat)
    requires j < |s.consumers| && s.consumers[j].Popped?
    ensures Enabled(s, Return(j))
  {
  }

  lemma AddEnabled(s: State, i: nat)
    requires i < |s.producers| && s.producers[i].Holding?
    ensures Enabled(s, Add(i))
  {
  }

  /** Nobody can take anything: no reader is left, or nothing can ever be queued. */
  ghost predicate NobodyTakes(s: State)
  {
    !SomeReader(s) || s.size == 0
  }

  lemma NobodyTakesStep(s: State, e: Step)
    requires Invariant(s) && Enabled(s, e) && NobodyTakes(s)
    ensures !Takes(s, e) && NobodyTakes(After(s, e))
  {
    hide Sum, Tagged, Ordered, Accounted, Ends, NoneIsLast;
    SumBounds(s.producers, Claim);
    SumBounds(s.consumers, Hand);
    SameThreads(s, e);
    if !SomeReader(s) {
      ReadersRest(s, e);
    }
  }

  lemma ReadersRest(s: State, e: Step)
    requires Enabled(s, e) && !SomeReader(s)
    ensures After(s, e).consumers == s.consumers && !e.Pop?
  {
  }

  lemma {:induction false} NeverEnds(s: State, steps: seq<Step>)
    requires Invariant(s) && Runs(s, steps) && NobodyTakes(s) && !RoomForAll(s)
    ensures !AllEnded(EndOf(s, steps))
    decreases |steps|
  {
    hide Invariant, After, Enabled, Occupied, NobodyTakes;
    if steps == [] {
      NotAllEnded(s);
    } else {
      NobodyTakesStep(s, steps[0]);
      SpaceShrinks(s, steps[0]);
      SameThreads(s, steps[0]);
      InvariantKept(s, steps[0]);
      NeverEnds(After(s, steps[0]), steps[1..]);
    }
  }

  lemma NotAllEnded(s: State)
    requires Invariant(s) && !RoomForAll(s)
    ensures !AllEnded(s)
  {
    SumBounds(s.consumers, Hand);
    WaitingNotNegative(s.producers);
  }

  /**
   From any state, whether the user has closed the recordset or not, all producers can come to an end exactly if a
   reader is left and the queue has room for a record, or there is room for all records that are parsed already.
   */
  lemma CanEndExactly(s: State)
    requires Invariant(s)
    ensures (exists steps :: EndsBy(s, steps)) <==> (s.size > 0 && SomeReader(s)) || RoomForAll(s)
  {
    hide Invariant, RoomForAll, Runs, EndOf;
    if s.size > 0 && SomeReader(s) {
      var steps := EndsWithReader(s);
    } else if RoomForAll(s) {
      var steps := EndsWithRoom(s);
    } else {
      forall steps | Runs(s, steps) ensures !EndsBy(s, steps) {
        NeverEnds(s, steps);
      }
    }
  }

  /** The two for every reachable state. */
  lemma ReachableStates(size: nat, nodes: nat, readers: nat, steps: seq<Step>)
    requires Runs(Initial(size, nodes, readers), steps)
    ensures var s := EndOf(Initial(size, nodes, readers), steps);
      && ((exists more :: EndsBy(s, more)) <==> (size > 0 && SomeReader(s)) || RoomForAll(s))
      && forall i :: Offers(s, i) ==> ((exists more :: GetsRidOf(s, i, more)) <==> Occupied(s) < size)
  {
    hide Runs, EndOf, Offers, RoomForAll, SomeReader, Occupied;
    InitialInvariant(size, nodes, readers);
    RunInvariant(Initial(size, nodes, readers), steps);
    var s := EndOf(Initial(size, nodes, readers), steps);
    CanEndExactly(s);
    forall i | Offers(s, i) ensures (exists more :: GetsRidOf(s, i, more)) <==> Occupied(s) < size {
      OffHandsExactly(s, i);
    }
  }
}
